/** The manager object: a nested map of ratchet objects, each change of which is written through to the database. */
module SessionManager {
  import opened Wrappers
  import opened Crypto
  import Sets
  import opened Ratchet
  import opened Codec
  import opened KeyBundle
  import opened Sessions
  import opened Coherence
  import opened NewRatchet
  import opened Database
  import Restart
  import Room
  import X3dh

  // ---- Building a ratchet from a bundle ----

  method GetSharedSecret(b: Bundle, store: KeyStore) returns (secret: Result<Term, Error>)
    ensures secret == SharedSecret(b, store)
  {
    var agreed: Result<Term, X3dh.Error>;
    match b {
      case Sending(_, ephemeral, device, signed, onetime, signature) =>
        if !ValidSignature(signature, signed, device) {
          return Failure(InvalidSignature);
        }
        agreed := X3dh.Initiator(store.deviceSecret, KeyIn(ephemeral), device, signed, onetime);
      case Receiving(device, ephemeral, onetime) =>
        var onetimePrivate := None;
        if onetime.Some? {
          if onetime.value !in store.onetime {
            return Failure(MissingOnetimeKey);
          }
          onetimePrivate := Some(KeyIn(store.onetime[onetime.value]));
        }
        agreed := X3dh.Responder(device, ephemeral, store.deviceSecret, KeyIn(store.signedPriv), onetimePrivate);
    }
    return Lift(agreed);
  }

  method BuildRatchet(b: Bundle, store: KeyStore, unset: int) returns (ratchet: Result<NewRatchet, Error>)
    ensures ratchet.Success? <==> CreateRatchet(b, store, unset).Success?
    ensures ratchet.Success? ==> fresh(ratchet.value) && ratchet.value.View() == CreateRatchet(b, store, unset).value
    ensures ratchet.Failure? ==> ratchet.error == CreateRatchet(b, store, unset).error
  {
    var secret := GetSharedSecret(b, store);
    if secret.Failure? {
      return Failure(secret.error);
    }
    var r: NewRatchet;
    if b.Sending? {
      r := new NewRatchet.ForInitiator(secret.value, b.theirSignedPublic, b.ephemeralPublic, b.ephemeralPriv, unset);
    } else {
      r := new NewRatchet.ForRecipient(
        secret.value, b.theirEphemeralPublic, store.signedPublic, store.signedPriv, unset);
    }
    return Success(r);
  }

  lemma CreatedFits(b: Bundle, store: KeyStore, unset: int)
    requires CreateRatchet(b, store, unset).Success? && IsInt32(unset)
    ensures Fits(CreateRatchet(b, store, unset).value)
  {
  }

  // ---- One ratchet: advance, then write through ----

  method SendAndSave(ratchet: NewRatchet, db: Database, user: string, device: DeviceId, kek: Term)
      returns (key: Term, header: Header)
    requires Restart.Roomy(ratchet.View(), 1)
    modifies ratchet, db`ratchets, db`ratchetKeys
    ensures ratchet.View() == AfterSend(old(ratchet.View()))
    ensures key == SentKey(old(ratchet.View())) && header == SentHeader(old(ratchet.View()))
    ensures RatchetSaved(old(db.View()), db.View(), kek, user, device, ratchet.View())
  {
    hide RatchetSaved, AfterSend, SentKey, SentHeader, Fits, Restart.Roomy;
    SendKeepsRoom(ratchet.View());
    key, header := ratchet.AdvanceSend();
    ratchet.Save(db, user, device, kek);
  }

  method ReceiveAndSave(
      ratchet: NewRatchet, header: Header, drawn: nat, db: Database, user: string, device: DeviceId, kek: Term)
      returns (outcome: Outcome)
    requires Restart.Roomy(ratchet.View(), 1) && Restart.HeaderFits(header)
    modifies ratchet, db`ratchets, db`ratchetKeys
    ensures (ratchet.View(), outcome) == AdvanceReceive(old(ratchet.View()), header, drawn)
    ensures if outcome.Received? then RatchetSaved(old(db.View()), db.View(), kek, user, device, ratchet.View())
      else db.View() == old(db.View())
  {
    hide RatchetSaved, AdvanceReceive, Fits, Restart.Roomy, Restart.HeaderFits;
    ReceiveKeepsRoom(ratchet.View(), header, drawn);
    outcome := ratchet.AdvanceReceive(header, drawn);
    if outcome.Received? {
      ratchet.Save(db, user, device, kek);
    }
  }

  // ---- Accumulated saves ----

  /** Part way through a fan-out: the ratchets of all but the remaining devices of a user have sent, their keys are
      collected and their rows are to be saved. */
  ghost predicate Advanced(
      start: Ratchets, now: Ratchets, user: string, me: DeviceId, remaining: set<DeviceId>,
      keys: map<DeviceId, (Term, Header)>, rows: Rows)
  {
    && remaining <= start.Keys && now.Keys == start.Keys
    && keys.Keys == start.Keys - remaining && rows.Keys == start.Keys - remaining
    && (forall d | d in start :: now[d] == if d in remaining then start[d] else AfterSend(start[d]))
    && (forall d | d in start && d !in remaining ::
          && keys[d] == (SentKey(start[d]), SentHeader(start[d]).(deviceId := me))
          && rows[d] == (user, Observe(AfterSend(start[d]))))
  }

  lemma AdvancedMore(
      start: Ratchets, now: Ratchets, user: string, me: DeviceId, remaining: set<DeviceId>,
      keys: map<DeviceId, (Term, Header)>, rows: Rows, d: DeviceId)
    requires Advanced(start, now, user, me, remaining, keys, rows) && d in remaining
    ensures d in start && d in now && now[d] == start[d]
    ensures var s := start[d];
      Advanced(
        start, now[d := AfterSend(s)], user, me, remaining - {d},
        keys[d := (SentKey(s), SentHeader(s).(deviceId := me))], rows[d := (user, Observe(AfterSend(s)))])
  {
    hide AfterSend, SentKey, SentHeader, Observe;
  }

  lemma AdvancedAll(
      start: Ratchets, now: Ratchets, user: string, me: DeviceId, keys: map<DeviceId, (Term, Header)>, rows: Rows)
    requires Advanced(start, now, user, me, {}, keys, rows)
    ensures now == AllSent(start) && keys == KeysOfAll(start, me) && rows == RowsOf(user, now)
  {
    hide AfterSend, SentKey, SentHeader, Observe;
  }

  /** Part way through a fan-out, with every other user's sessions as at the start. */
  ghost predicate FanningOut(
      start: Sessions, now: Sessions, user: string, me: DeviceId, remaining: set<DeviceId>,
      keys: map<DeviceId, (Term, Header)>, rows: Rows)
  {
    && user in start && user in now && now == start[user := now[user]]
    && Advanced(start[user], now[user], user, me, remaining, keys, rows)
  }

  lemma FanOutStarts(start: Sessions, user: string, me: DeviceId)
    requires user in start
    ensures FanningOut(start, start, user, me, start[user].Keys, map[], map[])
  {
    assert start == start[user := start[user]];
  }

  lemma FanOutGoesOn(
      start: Sessions, now: Sessions, user: string, me: DeviceId, remaining: set<DeviceId>,
      keys: map<DeviceId, (Term, Header)>, rows: Rows, d: DeviceId)
    requires FanningOut(start, now, user, me, remaining, keys, rows) && d in remaining
    ensures Has(start, user, d) && Has(now, user, d) && now[user][d] == start[user][d]
    ensures var s := start[user][d];
      FanningOut(
        start, Put(now, user, d, AfterSend(s)), user, me, remaining - {d},
        keys[d := (SentKey(s), SentHeader(s).(deviceId := me))], rows[d := (user, Observe(AfterSend(s)))])
  {
    hide Advanced, AfterSend, SentKey, SentHeader, Observe;
    AdvancedMore(start[user], now[user], user, me, remaining, keys, rows, d);
    var now' := Put(now, user, d, AfterSend(start[user][d]));
    assert now' == start[user := now'[user]];
  }

  lemma FanOutEnds(
      start: Sessions, now: Sessions, user: string, me: DeviceId, keys: map<DeviceId, (Term, Header)>, rows: Rows)
    requires FanningOut(start, now, user, me, {}, keys, rows)
    ensures now == SendAll(start, user) && keys == SentKeys(start, user, me) && rows == RowsOf(user, Of(now, user))
  {
    hide Advanced, AllSent, KeysOfAll, RowsOf;
    AdvancedAll(start[user], now[user], user, me, keys, rows);
  }

  lemma SendKeepsRoom(s: State)
    requires Restart.Roomy(s, 1)
    ensures Fits(AfterSend(s))
  {
    Restart.StepKeepsRoom(s, Restart.Send, 1);
    Restart.RoomyFits(AfterSend(s), 0);
  }

  lemma ReceiveKeepsRoom(s: State, h: Header, drawn: nat)
    requires Restart.Roomy(s, 1) && Restart.HeaderFits(h)
    ensures Fits(AdvanceReceive(s, h, drawn).0)
  {
    Restart.StepKeepsRoom(s, Restart.Receive(h, drawn), 1);
    Restart.RoomyFits(AdvanceReceive(s, h, drawn).0, 0);
  }

  /** Inserting an empty map for the user beforehand makes no difference to a send. */
  lemma SendAllEnsured(m: Sessions, user: string, me: DeviceId)
    ensures var m' := m[user := Of(m, user)];
      && m'[user] == Of(m, user) && SendAll(m', user) == SendAll(m, user)
      && SentKeys(m', user, me) == SentKeys(m, user, me)
  {
  }

  /** Rows for the ratchets that were not there before. */
  ghost function NewRows(user: string, before: Ratchets, after: Ratchets): Rows {
    RowsOf(user, Added(before, after))
  }

  /** Saves of first one creation and then the next. */
  lemma NewRowsCompose(user: string, m: Ratchets, before: Ratchets, after: Ratchets)
    requires m.Keys <= before.Keys && forall d | d in before :: d in after && after[d] == before[d]
    ensures NewRows(user, m, after) == NewRows(user, m, before) + NewRows(user, before, after)
  {
  }

  /** Memory and tables after the given creation for one user, from the given start. */
  ghost predicate Created(
      start: Sessions, after: Sessions, t: Tables, t': Tables, kek: Term, user: string, c: Creation)
  {
    && user in start && after == start[user := c.ratchets]
    && RatchetsSaved(t, t', kek, NewRows(user, start[user], c.ratchets))
  }

  lemma CreatedNothing(m: Sessions, t: Tables, kek: Term, user: string, store: KeyStore, post: bool)
    requires user in m
    ensures CreateAll(m[user], [], store, post) == Creation(m[user], [], None)
    ensures Created(m, m, t, t, kek, user, Creation(m[user], [], None))
  {
    NothingSaved(t, kek);
    assert NewRows(user, m[user], m[user]) == map[];
    assert m[user := m[user]] == m;
  }

  lemma CreatedMore(
      start: Sessions, mid: Sessions, after: Sessions, t: Tables, t1: Tables, t2: Tables, kek: Term, user: string,
      c: Creation, n: Creation)
    requires user in start && start[user].Keys <= c.ratchets.Keys
    requires forall d | d in c.ratchets :: d in n.ratchets && n.ratchets[d] == c.ratchets[d]
    requires Created(start, mid, t, t1, kek, user, c) && Created(mid, after, t1, t2, kek, user, n)
    ensures Created(start, after, t, t2, kek, user, n)
  {
    hide RatchetsSaved, NewRows;
    NewRowsCompose(user, start[user], c.ratchets, n.ratchets);
    SavesCompose(t, t1, t2, kek, NewRows(user, start[user], c.ratchets), NewRows(user, mid[user], n.ratchets));
  }

  /** Extending the offers that have been handled by the next one. */
  lemma NextOffer(m: Ratchets, offers: seq<Offer>, i: nat, store: KeyStore, post: bool)
    requires i < |offers| && CreateAll(m, offers[..i], store, post).error.None?
    ensures var c := CreateAll(m, offers[..i], store, post); var n := CreateAll(c.ratchets, [offers[i]], store, post);
      && m.Keys <= c.ratchets.Keys && (forall d | d in c.ratchets :: d in n.ratchets && n.ratchets[d] == c.ratchets[d])
      && CreateAll(m, offers[..i + 1], store, post) == n.(posted := c.posted + n.posted)
      && (n.error.Some? ==> CreateAll(m, offers, store, post) == n.(posted := c.posted + n.posted))
  {
    hide CreateAll;
    var c := CreateAll(m, offers[..i], store, post);
    assert offers[..i] + [offers[i]] == offers[..i + 1];
    CreateAllConcat(m, offers[..i], [offers[i]], store, post);
    CreationIsMonotone(m, offers[..i], store, post);
    CreationIsMonotone(c.ratchets, [offers[i]], store, post);
    assert offers[..i + 1] + offers[i + 1..] == offers;
    CreateAllConcat(m, offers[..i + 1], offers[i + 1..], store, post);
  }

  /** One offer. */
  lemma CreateAllOne(m: Ratchets, o: Offer, store: KeyStore, post: bool)
    ensures var d := o.bundle.theirDevicePublic; var r := CreateRatchet(o.bundle, store, o.unset);
      CreateAll(m, [o], store, post)
      == if d in m then Creation(m, [], None)
         else if r.Failure? then Creation(m, [], Some(r.error))
         else Creation(m[d := r.value], if post && o.bundle.Sending? then [d] else [], None)
  {
    assert [o][1..] == [];
  }

  lemma CreatedUser(start: Sessions, after: Sessions, t: Tables, t': Tables, kek: Term, user: string, c: Creation)
    requires Created(start, after, t, t', kek, user, c)
    ensures user in after && after[user] == c.ratchets
  {
  }

  lemma CreatedFromEnsured(
      m: Sessions, start: Sessions, after: Sessions, t: Tables, t': Tables, kek: Term, user: string, c: Creation)
    requires start == m[user := Of(m, user)] && Created(start, after, t, t', kek, user, c)
    ensures start[user] == Of(m, user) && after == m[user := c.ratchets]
    ensures RatchetsSaved(t, t', kek, NewRows(user, Of(m, user), c.ratchets))
  {
  }

  /** What became of one offer: nothing, an error, or one more ratchet that is saved. */
  ghost predicate OfferHandled(
      m: Sessions, after: Sessions, t: Tables, t': Tables, kek: Term, user: string, o: Offer, store: KeyStore,
      error: Option<Error>)
    requires user in m
  {
    var d, r := o.bundle.theirDevicePublic, CreateRatchet(o.bundle, store, o.unset);
    if d in m[user] then after == m && t' == t && error == None
    else if r.Failure? then after == m && t' == t && error == Some(r.error)
    else after == Put(m, user, d, r.value) && RatchetSaved(t, t', kek, user, d, r.value) && error == None
  }

  lemma HandledIsCreated(
      m: Sessions, after: Sessions, t: Tables, t': Tables, kek: Term, user: string, o: Offer, store: KeyStore,
      error: Option<Error>, post: bool)
    requires user in m && OfferHandled(m, after, t, t', kek, user, o, store, error)
    ensures var c := CreateAll(m[user], [o], store, post);
      && Created(m, after, t, t', kek, user, c) && error == c.error
      && c.posted == if error.None? && o.bundle.theirDevicePublic !in m[user] && o.bundle.Sending? && post
                     then [o.bundle.theirDevicePublic] else []
  {
    CreateAllOne(m[user], o, store, post);
    CreatedNothing(m, t, kek, user, store, post);
    var d, r := o.bundle.theirDevicePublic, CreateRatchet(o.bundle, store, o.unset);
    if d !in m[user] {
      if r.Success? {
        NewRowsOfOne(user, m[user], d, r.value);
      } else {
        CreatedIgnoresPosts(m, m, t, t, kek, user, Creation(m[user], [], None), []);
        assert Created(m, m, t, t, kek, user, Creation(m[user], [], error));
      }
    }
  }

  lemma CreatedIgnoresPosts(
      start: Sessions, after: Sessions, t: Tables, t': Tables, kek: Term, user: string, c: Creation,
      posted: seq<DeviceId>)
    requires Created(start, after, t, t', kek, user, c)
    ensures Created(start, after, t, t', kek, user, c.(posted := posted))
  {
  }

  lemma NewRowsOfOne(user: string, m: Ratchets, d: DeviceId, s: State)
    requires d !in m
    ensures NewRows(user, m, m[d := s]) == map[d := (user, Observe(s))]
  {
  }

  /** The rows that fetching and then sending writes. */
  ghost function FetchRows(m: Sessions, user: string, f: Fetched): Rows {
    NewRows(user, Of(m, user), Of(f.sessions, user))
    + if f.error.Some? then map[] else RowsOf(user, Of(SendAll(f.sessions, user), user))
  }

  lemma NoNewRows(user: string, r: Ratchets)
    ensures NewRows(user, r, r) == map[]
  {
  }

  /** Every session there was is still there, whatever became of its ratchet. */
  ghost predicate KeepsSessions(m: Sessions, n: Sessions) {
    forall u, d | Has(m, u, d) :: Has(n, u, d)
  }

  /** A device that creation takes from another user ends up, and stays, under both. */
  lemma TakenTwice(m: Sessions, user: string, offers: seq<Offer>, store: KeyStore, n: Sessions, saved: Rows)
    requires !NoDeviceTaken(m, user, offers, store)
    requires KeepsSessions(m[user := CreateAll(Of(m, user), offers, store, true).ratchets], n)
    ensures !Coherent(n, saved)
  {
    hide CreateAll, Reached;
    var known, next := Of(m, user), m[user := CreateAll(Of(m, user), offers, store, true).ratchets];
    var i, u :| 0 <= i < |offers| && Reached(known, offers, store, i) && u in m && u != user
      && offers[i].bundle.theirDevicePublic !in known && offers[i].bundle.theirDevicePublic in m[u];
    var d := offers[i].bundle.theirDevicePublic;
    CreatedExactly(known, offers, store, true, d);
    assert Has(next, user, d) && Has(next, u, d);
    assert Has(n, user, d) && Has(n, u, d);
    if Coherent(n, saved) {
      SavedAs(n, saved, user, d);
      SavedAs(n, saved, u, d);
    }
  }

  lemma SendingKeepsSessions(m: Sessions, user: string)
    ensures KeepsSessions(m, SendAll(m, user))
  {
  }

  /** Fetching bundles and then sending, with the saves both make, keeps the database in step with memory exactly when
      no device that creation gets to is another user's. */
  lemma KeysForIdentityCoherence(
      m: Sessions, t: Tables, t': Tables, kek: Term, user: string, fetched: Option<seq<Offer>>, store: KeyStore)
    requires Readable(t, kek) && Coherent(m, Saved(t, kek))
    requires RowsSaved(t, t', kek, FetchRows(m, user, WithFetched(m, user, fetched, store)))
    ensures var f := WithFetched(m, user, fetched, store);
      && Readable(t', kek)
      && (Coherent(if f.error.Some? then f.sessions else SendAll(f.sessions, user), Saved(t', kek))
          <==> (fetched.Some? ==> NoDeviceTaken(m, user, fetched.value, store)))
  {
    hide CreateAll, SendAll, Readable, Saved, Coherent, RowsOf, NoDeviceTaken, RowsWritten;
    var f := WithFetched(m, user, fetched, store);
    var saved, fresh' := Saved(t, kek), NewRows(user, Of(m, user), Of(f.sessions, user));
    if fetched.None? {
      NoNewRows(user, Of(m, user));
      NoRows(saved);
    } else {
      CreationCoherence(m, saved, user, fetched.value, store, true);
    }
    if f.error.Some? {
      NoRows(fresh');
    } else if fetched.Some? && !NoDeviceTaken(m, user, fetched.value, store) {
      SendingKeepsSessions(f.sessions, user);
      TakenTwice(m, user, fetched.value, store, SendAll(f.sessions, user), Saved(t', kek));
    } else {
      SendKeepsCoherent(f.sessions, saved + fresh', user);
      RowsAssociate(saved, fresh', RowsOf(user, Of(SendAll(f.sessions, user), user)));
    }
  }

  // ---- The nested map of ratchet objects ----

  /** ratchets[user][device] := ratchet. */
  function Entered<T>(r: map<string, map<DeviceId, T>>, user: string, d: DeviceId, x: T)
    : map<string, map<DeviceId, T>>
  {
    r[user := (if user in r then r[user] else map[])[d := x]]
  }

  lemma EnteredStep<T>(r: map<string, map<DeviceId, T>>, user: string, d: DeviceId, x: T, u: string, e: DeviceId)
    ensures var r' := Entered(r, user, d, x); u in r' && e in r'[u] ==>
      if u == user && e == d then r'[u][e] == x else u in r && e in r[u] && r'[u][e] == r[u][e]
  {
  }

  ghost predicate Aligned<T>(r: map<string, map<DeviceId, T>>, m: Sessions) {
    m.Keys == r.Keys && forall u | u in r :: m[u].Keys == r[u].Keys
  }

  lemma EnteredAligned<T>(r: map<string, map<DeviceId, T>>, m: Sessions, user: string, d: DeviceId, x: T, s: State)
    requires Aligned(r, m)
    ensures Aligned(Entered(r, user, d, x), Put(m, user, d, s))
  {
  }

  lemma PutAligned<T>(r: map<string, map<DeviceId, T>>, m: Sessions, user: string, d: DeviceId, s: State)
    requires Aligned(r, m) && Has(m, user, d)
    ensures Aligned(r, Put(m, user, d, s))
    ensures forall u, e | Has(m, u, e) :: Put(m, user, d, s)[u][e] == if u == user && e == d then s else m[u][e]
  {
  }

  class RatchetSessionManager {
    var ratchets: map<string, map<DeviceId, NewRatchet>>
    const db: Database
    ghost var sessions: Sessions
    ghost var places: map<NewRatchet, (string, DeviceId)>

    constructor (db: Database)
      ensures Valid() && sessions == map[] && Objects() == {} && this.db == db
    {
      ratchets := map[];
      sessions, places := map[], map[];
      this.db := db;
    }

    ghost predicate Holds(user: string, d: DeviceId)
      reads this`ratchets
    {
      user in ratchets && d in ratchets[user]
    }

    ghost function Objects(): set<NewRatchet>
      reads this`places
    {
      places.Keys
    }

    /** Each entry owns its ratchet, and the sessions are what the entries hold. */
    ghost predicate Valid()
      reads this, Objects()
    {
      && Aligned(ratchets, sessions)
      && forall u, d {:trigger Holds(u, d)} | Holds(u, d) ::
           && ratchets[u][d] in places && places[ratchets[u][d]] == (u, d)
           && ratchets[u][d].View() == sessions[u][d]
    }

    /** Advances and saves the ratchet of one device. */
    method SendOne(user: string, device: DeviceId, kek: Term) returns (key: Term, header: Header)
      requires Valid() && Has(sessions, user, device) && Restart.Roomy(sessions[user][device], 1)
      modifies this`sessions, ratchets[user][device], db`ratchets, db`ratchetKeys
      ensures var s := old(sessions)[user][device]; var t := AfterSend(s);
        && Valid() && sessions == Put(old(sessions), user, device, t) && key == SentKey(s) && header == SentHeader(s)
        && RatchetSaved(old(db.View()), db.View(), kek, user, device, t)
    {
      hide RatchetSaved, AfterSend, SentKey, SentHeader, Restart.Roomy, Put, NewRatchet.View;
      assert Holds(user, device);
      key, header := SendAndSave(ratchets[user][device], db, user, device, kek);
      PutAligned(ratchets, sessions, user, device, AfterSend(sessions[user][device]));
      sessions := Put(sessions, user, device, AfterSend(sessions[user][device]));
      forall u, d | Holds(u, d)
        ensures Has(sessions, u, d) && ratchets[u][d].View() == sessions[u][d]
        ensures ratchets[u][d] in places && places[ratchets[u][d]] == (u, d)
      {
        assert old(Holds(u, d)) && Has(old(sessions), u, d);
      }
      hide Aligned;
    }

    /** ratchets[username]: a lookup that inserts an empty map for a user not seen before. */
    method EnsureUser(user: string)
      requires Valid()
      modifies this`ratchets, this`sessions
      ensures Valid() && Objects() == old(Objects()) && user in sessions
      ensures sessions == old(sessions)[user := Of(old(sessions), user)]
    {
      if user !in ratchets {
        ratchets := ratchets[user := map[]];
        sessions := sessions[user := map[]];
        assert forall u, d :: Holds(u, d) ==> old(Holds(u, d));
      } else {
        assert sessions[user := sessions[user]] == sessions;
      }
    }

    /** One turn of the fan-out loop. */
    method AdvanceNext(
        user: string, device: DeviceId, me: DeviceId, kek: Term, keys: map<DeviceId, (Term, Header)>,
        ghost start: Sessions, ghost tables: Tables, ghost remaining: set<DeviceId>, ghost rows: Rows)
        returns (keys': map<DeviceId, (Term, Header)>, ghost rows': Rows)
      requires Valid() && FanningOut(start, sessions, user, me, remaining, keys, rows)
      requires device in remaining && Has(start, user, device) && Restart.Roomy(start[user][device], 1)
      requires RatchetsSaved(tables, db.View(), kek, rows)
      modifies this`sessions, Objects(), db`ratchets, db`ratchetKeys
      ensures Valid() && FanningOut(start, sessions, user, me, remaining - {device}, keys', rows')
      ensures RatchetsSaved(tables, db.View(), kek, rows')
    {
      hide RatchetsSaved, AfterSend, SentKey, SentHeader, Restart.Roomy, FanningOut;
      ghost var tables', t := db.View(), AfterSend(start[user][device]);
      FanOutGoesOn(start, sessions, user, me, remaining, keys, rows, device);
      assert Holds(user, device);
      var key, header := SendOne(user, device, kek);
      keys' := keys[device := (key, header.(deviceId := me))];
      rows' := rows + map[device := (user, Observe(t))];
      assert rows' == rows[device := (user, Observe(t))];
      SavesCompose(tables, tables', db.View(), kek, rows, map[device := (user, Observe(t))]);
    }

    method AdvanceDevices(user: string, me: DeviceId, kek: Term) returns (keys: map<DeviceId, (Term, Header)>)
      requires Valid() && user in sessions
      requires forall d | d in sessions[user] :: Restart.Roomy(sessions[user][d], 1)
      modifies this`sessions, Objects(), db`ratchets, db`ratchetKeys
      ensures Valid() && sessions == SendAll(old(sessions), user)
      ensures keys == SentKeys(old(sessions), user, me)
      ensures RatchetsSaved(old(db.View()), db.View(), kek, RowsOf(user, Of(sessions, user)))
    {
      hide RatchetsSaved, FanningOut, SendAll, SentKeys, RowsOf, Restart.Roomy;
      ghost var start, tables, rows := sessions, db.View(), map[];
      FanOutStarts(start, user, me);
      NothingSaved(tables, kek);
      keys := map[];
      var remaining := ratchets[user].Keys;
      while remaining != {}
        invariant Valid() && remaining <= start[user].Keys
        invariant FanningOut(start, sessions, user, me, remaining, keys, rows)
        invariant RatchetsSaved(tables, db.View(), kek, rows)
      {
        Sets.EmptyWithoutElements(remaining);
        var device :| device in remaining;
        keys, rows := AdvanceNext(user, device, me, kek, keys, start, tables, remaining, rows);
        remaining := remaining - {device};
      }
      FanOutEnds(start, sessions, user, me, keys, rows);
    }

    /** The keys for every device of a user, whose ratchets all advance and are saved. */
    method AdvanceAll(user: string, me: DeviceId, kek: Term) returns (keys: map<DeviceId, (Term, Header)>)
      requires Valid()
      requires forall d | d in Of(sessions, user) :: Restart.Roomy(Of(sessions, user)[d], 1)
      modifies this`ratchets, this`sessions, this`places, Objects(), db`ratchets, db`ratchetKeys
      ensures Valid() && sessions == SendAll(old(sessions), user)
      ensures keys == SentKeys(old(sessions), user, me)
      ensures RatchetsSaved(old(db.View()), db.View(), kek, RowsOf(user, Of(sessions, user)))
    {
      EnsureUser(user);
      SendAllEnsured(old(sessions), user, me);
      keys := AdvanceDevices(user, me, kek);
    }

    method ReceiveOne(user: string, device: DeviceId, header: Header, drawn: nat, kek: Term) returns (outcome: Outcome)
      requires Valid() && Has(sessions, user, device)
      requires Restart.HeaderFits(header) && Restart.Roomy(sessions[user][device], 1)
      modifies this`sessions, ratchets[user][device], db`ratchets, db`ratchetKeys
      ensures var (t, answer) := AdvanceReceive(old(sessions)[user][device], header, drawn);
        && Valid() && sessions == Put(old(sessions), user, device, t) && outcome == answer
        && if outcome.Received? then RatchetSaved(old(db.View()), db.View(), kek, user, device, t)
           else db.View() == old(db.View())
    {
      hide RatchetSaved, AdvanceReceive, Restart.Roomy, Restart.HeaderFits, Put, NewRatchet.View;
      assert Holds(user, device);
      outcome := ReceiveAndSave(ratchets[user][device], header, drawn, db, user, device, kek);
      PutAligned(ratchets, sessions, user, device, AdvanceReceive(sessions[user][device], header, drawn).0);
      sessions := Put(sessions, user, device, AdvanceReceive(sessions[user][device], header, drawn).0);
      forall u, d | Holds(u, d)
        ensures Has(sessions, u, d) && ratchets[u][d].View() == sessions[u][d]
        ensures ratchets[u][d] in places && places[ratchets[u][d]] == (u, d)
      {
        assert old(Holds(u, d)) && Has(old(sessions), u, d);
      }
      hide Aligned;
    }

    /** advance_receive on the ratchet the header names; nothing is saved when it throws. */
    method GetKeyForDevice(user: string, header: Header, drawn: nat, kek: Term) returns (reply: Reply)
      requires Valid() && Restart.HeaderFits(header)
      requires Has(sessions, user, header.deviceId) ==> Restart.Roomy(sessions[user][header.deviceId], 1)
      modifies this`sessions, Objects(), db`ratchets, db`ratchetKeys
      ensures Valid() && (sessions, reply) == ReceiveFrom(old(sessions), user, header, drawn)
      ensures if reply.Reply? && reply.outcome.Received?
        then RatchetSaved(old(db.View()), db.View(), kek, user, header.deviceId, sessions[user][header.deviceId])
        else db.View() == old(db.View())
    {
      hide RatchetSaved, AdvanceReceive, Restart.Roomy, Restart.HeaderFits;
      if user !in ratchets {
        return UserNotFound;
      }
      if header.deviceId !in ratchets[user] {
        return DeviceNotFound;
      }
      assert Holds(user, header.deviceId);
      var outcome := ReceiveOne(user, header.deviceId, header, drawn, kek);
      return Reply(outcome);
    }

    /** Stores a ratchet under a device, replacing any that was there. */
    method SetRatchet(user: string, device: DeviceId, ratchet: NewRatchet)
      requires Valid() && ratchet !in Objects()
      modifies this`ratchets, this`sessions, this`places
      ensures Valid() && Objects() == old(Objects()) + {ratchet}
      ensures sessions == Put(old(sessions), user, device, ratchet.View())
    {
      hide NewRatchet.View, Entered, Put, Aligned;
      EnteredAligned(ratchets, sessions, user, device, ratchet, ratchet.View());
      ratchets := Entered(ratchets, user, device, ratchet);
      sessions := Put(sessions, user, device, ratchet.View());
      places := places[ratchet := (user, device)];
      forall u, d | Holds(u, d)
        ensures Has(sessions, u, d) && ratchets[u][d].View() == sessions[u][d]
        ensures ratchets[u][d] in places && places[ratchets[u][d]] == (u, d)
      {
        EnteredStep(old(ratchets), user, device, ratchet, u, d);
        PutAt(old(sessions), user, device, ratchet.View(), u, d);
        assert (u == user && d == device) || old(Holds(u, d));
      }
    }

    method AddRatchet(user: string, device: DeviceId, ratchet: NewRatchet, kek: Term)
      requires Valid() && !Has(sessions, user, device) && ratchet !in Objects() && Fits(ratchet.View())
      modifies this`ratchets, this`sessions, this`places, db`ratchets, db`ratchetKeys
      ensures Valid() && Objects() == old(Objects()) + {ratchet}
      ensures sessions == Put(old(sessions), user, device, ratchet.View())
      ensures RatchetSaved(old(db.View()), db.View(), kek, user, device, ratchet.View())
    {
      hide RatchetSaved, Fits;
      SetRatchet(user, device, ratchet);
      ratchet.Save(db, user, device, kek);
    }

    /** Makes a session for one bundle, unless its device has one or the bundle fails. */
    method BuildOne(user: string, offer: Offer, store: KeyStore, kek: Term)
        returns (error: Option<Error>, ghost added: set<NewRatchet>)
      requires Valid() && user in sessions && IsInt32(offer.unset)
      modifies this`ratchets, this`sessions, this`places, db`ratchets, db`ratchetKeys
      ensures Valid() && user in sessions && Objects() == old(Objects()) + added && fresh(added)
      ensures OfferHandled(old(sessions), sessions, old(db.View()), db.View(), kek, user, offer, store, error)
    {
      hide RatchetSaved, CreateRatchet, Fits;
      error, added := None, {};
      var device := offer.bundle.theirDevicePublic;
      if device !in ratchets[user] {
        var built := BuildRatchet(offer.bundle, store, offer.unset);
        if built.Failure? {
          return Some(built.error), {};
        }
        CreatedFits(offer.bundle, store, offer.unset);
        AddRatchet(user, device, built.value, kek);
        added := {built.value};
      }
    }

    method CreateOne(user: string, offer: Offer, store: KeyStore, post: bool, kek: Term)
        returns (posted: seq<DeviceId>, error: Option<Error>, ghost added: set<NewRatchet>)
      requires Valid() && user in sessions && IsInt32(offer.unset)
      modifies this`ratchets, this`sessions, this`places, db`ratchets, db`ratchetKeys
      ensures Valid() && user in sessions && Objects() == old(Objects()) + added && fresh(added)
      ensures var c := CreateAll(old(sessions)[user], [offer], store, post);
        && posted == c.posted && error == c.error
        && Created(old(sessions), sessions, old(db.View()), db.View(), kek, user, c)
    {
      hide OfferHandled, CreateAll, Created;
      ghost var start, tables := sessions, db.View();
      var isNew := offer.bundle.theirDevicePublic !in ratchets[user];
      error, added := BuildOne(user, offer, store, kek);
      HandledIsCreated(start, sessions, tables, db.View(), kek, user, offer, store, error, post);
      posted := if error.None? && isNew && offer.bundle.Sending? && post then [offer.bundle.theirDevicePublic] else [];
    }

    method CreateForUser(user: string, offers: seq<Offer>, store: KeyStore, post: bool, kek: Term)
        returns (posted: seq<DeviceId>, error: Option<Error>, ghost added: set<NewRatchet>)
      requires Valid() && user in sessions && forall i | 0 <= i < |offers| :: IsInt32(offers[i].unset)
      modifies this`ratchets, this`sessions, this`places, db`ratchets, db`ratchetKeys
      ensures Valid() && Objects() == old(Objects()) + added && fresh(added)
      ensures var c := CreateAll(old(sessions)[user], offers, store, post);
        && posted == c.posted && error == c.error
        && Created(old(sessions), sessions, old(db.View()), db.View(), kek, user, c)
    {
      hide Created, CreateAll;
      posted, error, added := [], None, {};
      ghost var start, tables, objects := sessions, db.View(), Objects();
      CreatedNothing(start, tables, kek, user, store, post);
      ghost var c := Creation(start[user], [], None);
      for i := 0 to |offers|
        invariant Valid() && user in sessions && Objects() == objects + added && fresh(added)
        invariant c == CreateAll(start[user], offers[..i], store, post)
        invariant posted == c.posted && error == c.error == None
        invariant Created(start, sessions, tables, db.View(), kek, user, c)
      {
        ghost var mid, tables' := sessions, db.View();
        assert mid[user] == c.ratchets by {
          CreatedUser(start, mid, tables, tables', kek, user, c);
        }
        var more, failed, extra := CreateOne(user, offers[i], store, post, kek);
        NextOffer(start[user], offers, i, store, post);
        ghost var n := CreateAll(c.ratchets, [offers[i]], store, post);
        CreatedMore(start, mid, sessions, tables, tables', db.View(), kek, user, c, n);
        CreatedIgnoresPosts(start, sessions, tables, db.View(), kek, user, n, c.posted + n.posted);
        posted, error, added := posted + more, failed, added + extra;
        c := n.(posted := c.posted + n.posted);
        if error.Some? {
          return;
        }
      }
      assert offers[..|offers|] == offers;
    }

    /** Makes a session for every bundle whose device has none, up to the first bundle that fails. */
    method CreateRatchetsIfNeeded(user: string, offers: seq<Offer>, store: KeyStore, post: bool, kek: Term)
        returns (posted: seq<DeviceId>, error: Option<Error>, ghost added: set<NewRatchet>)
      requires Valid() && forall i | 0 <= i < |offers| :: IsInt32(offers[i].unset)
      modifies this`ratchets, this`sessions, this`places, db`ratchets, db`ratchetKeys
      ensures Valid() && Objects() == old(Objects()) + added && fresh(added)
      ensures var c := CreateAll(Of(old(sessions), user), offers, store, post);
        && sessions == old(sessions)[user := c.ratchets] && posted == c.posted && error == c.error
        && RatchetsSaved(old(db.View()), db.View(), kek, NewRows(user, Of(old(sessions), user), c.ratchets))
    {
      hide Created, RatchetsSaved, CreateAll, NewRows;
      ghost var before := sessions;
      EnsureUser(user);
      ghost var start, tables := sessions, db.View();
      posted, error, added := CreateForUser(user, offers, store, post, kek);
      CreatedFromEnsured(
        before, start, sessions, tables, db.View(), kek, user, CreateAll(Of(before, user), offers, store, post));
    }

    // ---- Keys for a user, and reloading ----

    /** The keys for every device of a user. When bundles were fetched they are made sessions first; a bundle that
        fails stops the call before anything is advanced. */
    method GetKeysForIdentity(
        user: string, me: DeviceId, fetched: Option<seq<Offer>>, store: KeyStore, kek: Term)
        returns (keys: Result<map<DeviceId, (Term, Header)>, Error>, posted: seq<DeviceId>)
      requires Valid()
      requires fetched.Some? ==> forall i | 0 <= i < |fetched.value| :: IsInt32(fetched.value[i].unset)
      requires forall d | d in Of(sessions, user) :: Restart.Roomy(Of(sessions, user)[d], 1)
      modifies this`ratchets, this`sessions, this`places, Objects(), db`ratchets, db`ratchetKeys
      ensures Valid()
      ensures var f := WithFetched(old(sessions), user, fetched, store);
        && posted == f.posted
        && RatchetsSaved(old(db.View()), db.View(), kek, FetchRows(old(sessions), user, f))
        && if f.error.Some? then keys == Failure(f.error.value) && sessions == f.sessions
           else keys == Success(SentKeys(f.sessions, user, me)) && sessions == SendAll(f.sessions, user)
    {
      hide RatchetsSaved, NewRows, RowsOf, CreateAll, SendAll, SentKeys, Restart.Roomy, IsInt32;
      ghost var start, t, known := sessions, db.View(), Of(sessions, user);
      NoNewRows(user, known);
      NothingSaved(t, kek);
      posted := [];
      if fetched.Some? {
        Room.CreatedRoomy(known, fetched.value, store, true, 1);
        var error: Option<Error>;
        ghost var added;
        posted, error, added := CreateRatchetsIfNeeded(user, fetched.value, store, true, kek);
        if error.Some? {
          NoRows(NewRows(user, known, Of(sessions, user)));
          return Failure(error.value), posted;
        }
      }
      ghost var created, t1 := sessions, db.View();
      var all := AdvanceAll(user, me, kek);
      SavesCompose(t, t1, db.View(), kek, NewRows(user, known, Of(created, user)), RowsOf(user, Of(sessions, user)));
      keys := Success(all);
    }

    method LoadRow(row: (string, DeviceId, Octets))
      requires Valid() && Complete(row.2)
      modifies this`ratchets, this`sessions, this`places
      ensures Valid() && sessions == Put(old(sessions), row.0, row.1, Decode(row.2))
    {
      hide Decode, Complete;
      var ratchet := new NewRatchet.FromBytes(row.2);
      SetRatchet(row.0, row.1, ratchet);
    }

    /** Reads every row that decrypts back into a ratchet, row after row. */
    method LoadRatchetsFromDb(kek: Term) returns (ghost rows: seq<(string, DeviceId, Octets)>)
      requires Valid() && Readable(db.View(), kek)
      modifies this`ratchets, this`sessions, this`places
      ensures IsListing(rows, db.View(), kek) && forall i | 0 <= i < |rows| :: Complete(rows[i].2)
      ensures Valid() && sessions == LoadInto(old(sessions), rows)
    {
      hide Decode, Complete, IsListing, Readable;
      var all := db.GetAllDecryptedRatchets(kek);
      ListingCarriesSaved(db.View(), kek, all);
      rows := all;
      for i := 0 to |all|
        invariant Valid()
        invariant sessions == LoadInto(old(sessions), all[..i])
      {
        LoadRow(all[i]);
        assert all[..i + 1][..i] == all[..i];
      }
      assert all[..|all|] == all;
    }
  }

  // ---- The handshake backlog ----

  /** The rows that working off a backlog writes. */
  ghost function AcceptedRows(m: Sessions, handshakes: seq<(string, Offer)>, store: KeyStore): Rows
    decreases |handshakes|
  {
    if handshakes == [] then map[]
    else
      var (user, offer) := handshakes[0];
      var c := CreateAll(Of(m, user), [offer], store, true);
      NewRows(user, Of(m, user), c.ratchets)
      + if c.error.Some? then map[] else AcceptedRows(m[user := c.ratchets], handshakes[1..], store)
  }

  /** No handshake that is got to is from a device that another user has. */
  ghost predicate NoneTaken(m: Sessions, handshakes: seq<(string, Offer)>, store: KeyStore)
    decreases |handshakes|
  {
    handshakes != [] ==>
      var (user, offer) := handshakes[0];
      var c := CreateAll(Of(m, user), [offer], store, true);
      && NoDeviceTaken(m, user, [offer], store)
      && (c.error.None? ==> NoneTaken(m[user := c.ratchets], handshakes[1..], store))
  }

  /** Working off a backlog, with the rows it writes, keeps memory and rows in step exactly when no device is taken. */
  lemma {:induction false} AcceptingCoherence(
      m: Sessions, saved: Rows, handshakes: seq<(string, Offer)>, store: KeyStore)
    requires Coherent(m, saved)
    ensures Coherent(AcceptAll(m, handshakes, store).sessions, saved + AcceptedRows(m, handshakes, store))
       <==> NoneTaken(m, handshakes, store)
    decreases |handshakes|
  {
    hide CreateAll, Coherent, NoDeviceTaken, RowsOf;
    if handshakes == [] {
      NoRows(saved);
    } else {
      var (user, offer) := handshakes[0];
      var c := CreateAll(Of(m, user), [offer], store, true);
      var n, rows := m[user := c.ratchets], NewRows(user, Of(m, user), c.ratchets);
      CreationCoherence(m, saved, user, [offer], store, true);
      if c.error.Some? {
        NoRows(rows);
      } else if !NoDeviceTaken(m, user, [offer], store) {
        AcceptingKeepsSessions(n, handshakes[1..], store);
        TakenTwice(
          m, user, [offer], store, AcceptAll(n, handshakes[1..], store).sessions,
          saved + AcceptedRows(m, handshakes, store));
      } else {
        AcceptingCoherence(n, saved + rows, handshakes[1..], store);
        RowsAssociate(saved, rows, AcceptedRows(n, handshakes[1..], store));
      }
    }
  }

  /** Works off the handshake backlog; a handshake that fails ends the call. */
  method UpdateHandshakes(
      manager: RatchetSessionManager, handshakes: seq<(string, Offer)>, store: KeyStore, kek: Term)
      returns (posted: seq<DeviceId>, error: Option<Error>)
    requires manager.Valid() && forall i | 0 <= i < |handshakes| :: IsInt32(handshakes[i].1.unset)
    modifies manager`ratchets, manager`sessions, manager`places, manager.db`ratchets, manager.db`ratchetKeys
    ensures var a := AcceptAll(old(manager.sessions), handshakes, store);
      && manager.Valid() && manager.sessions == a.sessions && posted == a.posted && error == a.error
      && RatchetsSaved(
           old(manager.db.View()), manager.db.View(), kek, AcceptedRows(old(manager.sessions), handshakes, store))
  {
    hide CreateAll, IsInt32, RatchetsSaved, NewRows;
    ghost var start, t, rows: Rows := manager.sessions, manager.db.View(), map[];
    NothingSaved(t, kek);
    posted := [];
    assert handshakes[0..] == handshakes;
    NoRowsBefore(AcceptedRows(start, handshakes, store));
    for i := 0 to |handshakes|
      invariant manager.Valid() && RatchetsSaved(t, manager.db.View(), kek, rows)
      invariant var a := AcceptAll(manager.sessions, handshakes[i..], store);
        AcceptAll(start, handshakes, store) == a.(posted := posted + a.posted)
      invariant AcceptedRows(start, handshakes, store) == rows + AcceptedRows(manager.sessions, handshakes[i..], store)
    {
      var (user, offer) := handshakes[i];
      assert handshakes[i..][1..] == handshakes[i + 1..];
      ghost var m, t1 := manager.sessions, manager.db.View();
      var more, failed, added := manager.CreateRatchetsIfNeeded(user, [offer], store, true, kek);
      ghost var written := NewRows(user, Of(m, user), CreateAll(Of(m, user), [offer], store, true).ratchets);
      SavesCompose(t, t1, manager.db.View(), kek, rows, written);
      posted := posted + more;
      if failed.Some? {
        NoRows(written);
        return posted, failed;
      }
      RowsAssociate(rows, written, AcceptedRows(manager.sessions, handshakes[i + 1..], store));
      rows := rows + written;
    }
    NoRows(rows);
    error := None;
  }

  lemma NoRowsBefore(rows: Rows)
    ensures map[] + rows == rows
  {
  }
}
