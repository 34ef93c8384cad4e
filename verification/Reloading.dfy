/** Runs of the session manager over its database, with restarts: memory is dropped and loaded from the rows. */
module Reloading {
  import opened Wrappers
  import opened Integers
  import opened Crypto
  import opened Ratchet
  import opened Codec
  import KeyBundle
  import opened Sessions
  import opened Coherence
  import D = Database
  import opened Room
  import Restart
  import opened SessionManager

  type Listing = seq<(string, DeviceId, Octets)>

  /** What one installation holds of its sessions. */
  datatype Installed = Installed(memory: Sessions, tables: D.Tables)

  datatype Op = Works(op: Operation) | Restarts

  datatype Output =
    | Made(posted: seq<DeviceId>, error: Option<KeyBundle.Error>)
    | Keys(keys: map<DeviceId, (Term, Header)>)
    | Answer(reply: Reply)

  function Tells(m: Sessions, op: Operation): Output {
    match op
    case Creates(user, offers, store, post) =>
      var c := CreateAll(Of(m, user), offers, store, post); Made(c.posted, c.error)
    case Sends(user, me) => Keys(SentKeys(m, user, me))
    case Receives(user, h, drawn) => Answer(ReceiveFrom(m, user, h, drawn).1)
  }

  /** Memory is what some listing of the rows that decrypt loads into an empty manager. */
  ghost predicate LoadedFromRows(m: Sessions, t: D.Tables, kek: Term) {
    exists listing: Listing :: D.IsListing(listing, t, kek) && AllWhole(listing) && m == LoadInto(map[], listing)
  }

  ghost predicate AllWhole(listing: Listing) {
    forall i | 0 <= i < |listing| :: Complete(listing[i].2)
  }

  /** One operation: it changes memory and writes the rows it saves; a restart drops memory and reads rows. */
  ghost predicate Next(kek: Term, c: Installed, op: Op, c': Installed) {
    match op
    case Works(w) =>
      && c'.memory == Does(c.memory, w)
      && D.RowsWritten(c.tables, c'.tables, kek, RowsOf(w.user, SavedBy(c.memory, w)))
    case Restarts => c'.tables == c.tables && LoadedFromRows(c'.memory, c.tables, kek)
  }

  ghost predicate IsRun(kek: Term, states: seq<Installed>, ops: seq<Op>) {
    && |states| == |ops| + 1
    && forall i | 0 <= i < |ops| :: Next(kek, states[i], ops[i], states[i + 1])
  }

  /** What the first n operations of a run told. */
  ghost function Told(states: seq<Installed>, ops: seq<Op>, n: nat): seq<Output>
    requires n <= |ops| < |states|
  {
    if n == 0 then []
    else
      Told(states, ops, n - 1)
      + if ops[n - 1].Works? then [Tells(states[n - 1].memory, ops[n - 1].op)] else []
  }

  /** The same operations on memory alone, without any restart. */
  function MemoryRun(m: Sessions, ops: seq<Op>): (Sessions, seq<Output>) {
    if ops == [] then (m, [])
    else
      var (n, outputs) := MemoryRun(m, ops[..|ops| - 1]);
      match ops[|ops| - 1]
      case Works(w) => (Does(n, w), outputs + [Tells(n, w)])
      case Restarts => (n, outputs)
  }

  // ---- The manager takes these steps ----

  /** Each call of the manager is one step. */
  method Work(manager: RatchetSessionManager, op: Operation, kek: Term) returns (told: Output)
    requires manager.Valid() && FitsIn(Works(op)) && AllRoomy(manager.sessions, 1)
    modifies manager`ratchets, manager`sessions, manager`places, manager.Objects()
    modifies manager.db`ratchets, manager.db`ratchetKeys
    ensures manager.Valid() && told == Tells(old(manager.sessions), op)
    ensures Next(kek, Installed(old(manager.sessions), old(manager.db.View())), Works(op),
                 Installed(manager.sessions, manager.db.View()))
  {
    hide Restart.Roomy, Restart.HeaderFits, IsInt32, CreateAll, AllSent, KeysOfAll, AdvanceReceive, RowsOf,
      D.RowsWritten, D.Readable, D.Saved, D.RatchetSaved;
    match op
    case Creates(user, offers, store, post) =>
      var posted, error, added := manager.CreateRatchetsIfNeeded(user, offers, store, post, kek);
      told := Made(posted, error);
    case Sends(user, me) =>
      forall d | d in Of(manager.sessions, user) ensures Restart.Roomy(Of(manager.sessions, user)[d], 1) {
        assert Has(manager.sessions, user, d);
      }
      var keys := manager.AdvanceAll(user, me, kek);
      told := Keys(keys);
    case Receives(user, h, drawn) =>
      ghost var c := Installed(manager.sessions, manager.db.View());
      var reply := manager.GetKeyForDevice(user, h, drawn, kek);
      told := Answer(reply);
      ReceiptIsNext(kek, c, op, Installed(manager.sessions, manager.db.View()));
  }

  lemma ReceiptIsNext(kek: Term, c: Installed, op: Operation, c': Installed)
    requires op.Receives? && c'.memory == Does(c.memory, op)
    requires var reply := ReceiveFrom(c.memory, op.user, op.header, op.drawn).1;
      if reply.Reply? && reply.outcome.Received?
      then D.RatchetSaved(
        c.tables, c'.tables, kek, op.user, op.header.deviceId, c'.memory[op.user][op.header.deviceId])
      else c'.tables == c.tables
    ensures Next(kek, c, Works(op), c')
  {
    hide AdvanceReceive, Observe, D.RowsWritten, D.Readable, D.Saved;
    var rows := RowsOf(op.user, SavedBy(c.memory, op));
    if rows == map[] {
      D.NothingSaved(c.tables, kek);
    }
    var reply := ReceiveFrom(c.memory, op.user, op.header, op.drawn).1;
    if reply.Reply? && reply.outcome.Received? {
      var s := c'.memory[op.user][op.header.deviceId];
      assert rows == map[op.header.deviceId := (op.user, Observe(s))];
    } else {
      assert rows == map[];
    }
  }

  /** And so is a restart: a new manager, over the rows there are. */
  method Reload(db: D.Database, kek: Term, ghost before: Sessions) returns (manager: RatchetSessionManager)
    requires D.Readable(db.View(), kek)
    ensures fresh(manager) && manager.Valid() && manager.db == db
    ensures Next(kek, Installed(before, db.View()), Restarts, Installed(manager.sessions, db.View()))
  {
    manager := new RatchetSessionManager(db);
    ghost var rows := manager.LoadRatchetsFromDb(kek);
    assert AllWhole(rows);
  }

  // ---- What a restart keeps ----

  ghost predicate AlikeRatchets(r: Ratchets, q: Ratchets) {
    r.Keys == q.Keys && forall d | d in r :: Observe(r[d]) == Observe(q[d])
  }

  /** The same devices with ratchets that read back the same; a user without devices may be missing. */
  ghost predicate Alike(m: Sessions, n: Sessions) {
    forall u :: AlikeRatchets(Of(m, u), Of(n, u))
  }

  /** Equal, except that which lookup failed may differ when neither finds the device. */
  predicate SameAnswer(a: Output, b: Output) {
    a == b || (a.Answer? && b.Answer? && !a.reply.Reply? && !b.reply.Reply?)
  }

  predicate SameAnswers(a: seq<Output>, b: seq<Output>) {
    |a| == |b| && forall i | 0 <= i < |a| :: SameAnswer(a[i], b[i])
  }

  lemma RebuiltAlike(m: Sessions)
    ensures Alike(m, Rebuilt(m))
  {
    forall u ensures AlikeRatchets(Of(m, u), Of(Rebuilt(m), u)) {
      forall d | d in Of(m, u) ensures d in Of(Rebuilt(m), u) && Observe(m[u][d]) == Observe(Rebuilt(m)[u][d]) {
        assert m[u] != map[];
        ObserveTwice(m[u][d]);
      }
    }
  }

  /** Two ratchets that read back the same take every step alike. */
  lemma SameStep(s: State, t: State, op: Restart.Op)
    requires Observe(s) == Observe(t) && !op.Restart?
    ensures Observe(Restart.Step(s, op).0) == Observe(Restart.Step(t, op).0)
    ensures Restart.Step(s, op).1 == Restart.Step(t, op).1
  {
    Restart.StepOnObserved(s, op);
    Restart.StepOnObserved(t, op);
  }

  lemma SendsAlike(r: Ratchets, q: Ratchets, me: DeviceId)
    requires AlikeRatchets(r, q)
    ensures AlikeRatchets(AllSent(r), AllSent(q)) && KeysOfAll(r, me) == KeysOfAll(q, me)
  {
    hide AfterSend, SentKey, SentHeader, Observe;
    forall d | d in r
      ensures Observe(AfterSend(r[d])) == Observe(AfterSend(q[d]))
      ensures SentKey(r[d]) == SentKey(q[d]) && SentHeader(r[d]) == SentHeader(q[d])
    {
      SameStep(r[d], q[d], Restart.Send);
    }
  }

  lemma {:induction false} CreatesAlike(
      r: Ratchets, q: Ratchets, offers: seq<Offer>, store: KeyBundle.KeyStore, post: bool)
    requires AlikeRatchets(r, q)
    ensures var c, e := CreateAll(r, offers, store, post), CreateAll(q, offers, store, post);
      AlikeRatchets(c.ratchets, e.ratchets) && c.posted == e.posted && c.error == e.error
    decreases |offers|
  {
    hide KeyBundle.CreateRatchet, Observe;
    if offers != [] {
      var d, made :=
        offers[0].bundle.theirDevicePublic, KeyBundle.CreateRatchet(offers[0].bundle, store, offers[0].unset);
      if d in r {
        CreatesAlike(r, q, offers[1..], store, post);
      } else if made.Success? {
        CreatesAlike(r[d := made.value], q[d := made.value], offers[1..], store, post);
      }
    }
  }

  lemma ReceivesAlike(m: Sessions, n: Sessions, user: string, h: Header, drawn: nat)
    requires Alike(m, n)
    ensures var (m', a), (n', b) := ReceiveFrom(m, user, h, drawn), ReceiveFrom(n, user, h, drawn);
      Alike(m', n') && SameAnswer(Answer(a), Answer(b))
  {
    hide AdvanceReceive, Observe;
    assert AlikeRatchets(Of(m, user), Of(n, user));
    if Has(m, user, h.deviceId) {
      SameStep(m[user][h.deviceId], n[user][h.deviceId], Restart.Receive(h, drawn));
      var m', n' := ReceiveFrom(m, user, h, drawn).0, ReceiveFrom(n, user, h, drawn).0;
      forall u ensures AlikeRatchets(Of(m', u), Of(n', u)) {
        assert AlikeRatchets(Of(m, u), Of(n, u));
      }
    }
  }

  /** Memory that reads back the same works alike. */
  lemma WorksAlike(m: Sessions, n: Sessions, op: Operation)
    requires Alike(m, n)
    ensures Alike(Does(m, op), Does(n, op)) && SameAnswer(Tells(m, op), Tells(n, op))
  {
    hide AlikeRatchets, AllSent, KeysOfAll, CreateAll, ReceiveFrom;
    match op {
      case Creates(user, offers, store, post) => CreatesAlike(Of(m, user), Of(n, user), offers, store, post);
      case Sends(user, me) => SendsAlike(Of(m, user), Of(n, user), me);
      case Receives(user, h, drawn) => ReceivesAlike(m, n, user, h, drawn);
    }
    if !op.Receives? {
      forall u ensures AlikeRatchets(Of(Does(m, op), u), Of(Does(n, op), u)) {
        assert AlikeRatchets(Of(m, u), Of(n, u));
      }
    }
  }

  lemma AlikeItself(m: Sessions)
    ensures Alike(m, m)
  {
  }

  lemma AlikeBetween(m: Sessions, n: Sessions, o: Sessions)
    requires Alike(m, n) && Alike(m, o)
    ensures Alike(o, n)
  {
    hide Observe;
    forall u ensures AlikeRatchets(Of(o, u), Of(n, u)) {
      assert AlikeRatchets(Of(m, u), Of(n, u)) && AlikeRatchets(Of(m, u), Of(o, u));
    }
  }

  // ---- When a restart is invisible ----

  ghost predicate InStep(c: Installed, kek: Term) {
    D.Readable(c.tables, kek) && Coherent(c.memory, D.Saved(c.tables, kek))
  }

  lemma DecodedIsObserved(o: Octets)
    requires Complete(o)
    ensures Observe(Decode(o)) == Decode(o)
  {
    hide ReadKey, ReadChain, ReadEntries, ReadSigned, ByteValue;
    assert o[64..96][..KEY_LENGTH] == o[64..96];
  }

  lemma SavedIsObserved(t: D.Tables, kek: Term, d: DeviceId)
    requires D.Readable(t, kek) && d in D.Saved(t, kek)
    ensures Observe(D.Saved(t, kek)[d].1) == D.Saved(t, kek)[d].1
  {
    hide Observe, Decode, Complete;
    DecodedIsObserved(D.Opened(t, kek)[d].1);
  }

  /** Reloading gives back memory, as far as anything reads it, exactly when memory and rows agree. */
  lemma ReloadAlikeExactly(c: Installed, kek: Term, m: Sessions)
    requires D.Readable(c.tables, kek) && LoadedFromRows(m, c.tables, kek)
    ensures Alike(c.memory, m) <==> InStep(c, kek)
  {
    hide Observe, Decode, Complete, Alike, Coherent, LoadInto, D.Readable, D.Saved, D.IsListing, LoadedFrom;
    var listing: Listing :| D.IsListing(listing, c.tables, kek) && AllWhole(listing) && m == LoadInto(map[], listing);
    var saved := D.Saved(c.tables, kek);
    if InStep(c, kek) {
      ReloadRebuilds(c.memory, c.tables, kek, listing);
      RebuiltAlike(c.memory);
    }
    if Alike(c.memory, m) {
      ListingCarriesSaved(c.tables, kek, listing);
      LoadedSessions(map[], listing, saved);
      forall d | d in saved ensures Listed(listing, saved[d].0, d) && Observe(saved[d].1) == saved[d].1 {
        ListedWhenSaved(c.tables, kek, listing, d);
        SavedIsObserved(c.tables, kek, d);
      }
      AlikeIsCoherent(c.memory, m, listing, saved);
    }
  }

  lemma AlikeIsCoherent(m: Sessions, l: Sessions, listing: Listing, saved: Rows)
    requires Alike(m, l) && LoadedFrom(map[], l, listing, saved)
    requires forall d | d in saved :: Listed(listing, saved[d].0, d) && Observe(saved[d].1) == saved[d].1
    ensures Coherent(m, saved)
  {
    hide Observe, Listed;
    forall u, d | u in m && d in m[u] ensures d in saved && saved[d] == (u, Observe(m[u][d])) {
      assert AlikeRatchets(Of(m, u), Of(l, u));
      assert Has(l, u, d);
    }
    forall d | d in saved ensures saved[d].0 in m && d in m[saved[d].0] {
      assert AlikeRatchets(Of(m, saved[d].0), Of(l, saved[d].0));
      assert Has(l, saved[d].0, d);
    }
  }

  lemma ListedWhenSaved(t: D.Tables, kek: Term, listing: Listing, d: DeviceId)
    requires D.Readable(t, kek) && D.IsListing(listing, t, kek) && d in D.Saved(t, kek)
    ensures Listed(listing, D.Saved(t, kek)[d].0, d)
  {
    assert d in D.Opened(t, kek);
    var i :| 0 <= i < |listing| && listing[i].1 == d;
    assert listing[i].0 == t.ratchets[d].username;
  }

  // ---- Loading into memory that is not empty ----

  /** Logging out leaves the sessions in memory, and the next login loads its rows over them. Memory and rows then agree
      exactly when each session that was left has a row, under the same user. */
  lemma LoadingCoherence(m: Sessions, t: D.Tables, kek: Term, listing: Listing)
    requires D.Readable(t, kek) && D.IsListing(listing, t, kek) && AllWhole(listing)
    ensures Coherent(LoadInto(m, listing), D.Saved(t, kek))
       <==> forall u, d | Has(m, u, d) :: d in D.Saved(t, kek) && D.Saved(t, kek)[d].0 == u
  {
    hide Observe, Decode, Complete, LoadInto, D.Readable, D.Saved, D.IsListing, Listed;
    var saved, l := D.Saved(t, kek), LoadInto(m, listing);
    ListingCarriesSaved(t, kek, listing);
    LoadedSessions(m, listing, saved);
    forall d | d in saved ensures Listed(listing, saved[d].0, d) && Observe(saved[d].1) == saved[d].1 {
      ListedWhenSaved(t, kek, listing, d);
      SavedIsObserved(t, kek, d);
    }
    LoadedCoherence(m, l, listing, saved);
  }

  lemma LoadedCoherence(m: Sessions, l: Sessions, listing: Listing, saved: Rows)
    requires LoadedFrom(m, l, listing, saved)
    requires forall d | d in saved :: Listed(listing, saved[d].0, d) && Observe(saved[d].1) == saved[d].1
    ensures Coherent(l, saved) <==> forall u, d | Has(m, u, d) :: d in saved && saved[d].0 == u
  {
    hide Observe, Listed;
    if Coherent(l, saved) {
      forall u, d | Has(m, u, d) ensures d in saved && saved[d].0 == u {
        assert Has(l, u, d);
        SavedAs(l, saved, u, d);
      }
    }
    if forall u, d | Has(m, u, d) :: d in saved && saved[d].0 == u {
      forall u, d | u in l && d in l[u] ensures d in saved && saved[d] == (u, Observe(l[u][d])) {
        assert Has(l, u, d);
      }
      forall d | d in saved ensures saved[d].0 in l && d in l[saved[d].0] {
        assert Has(l, saved[d].0, d);
      }
    }
  }

  /** Loading over memory that agrees with the rows changes nothing that is read. */
  lemma LoadingAgain(c: Installed, kek: Term, listing: Listing)
    requires InStep(c, kek) && D.IsListing(listing, c.tables, kek) && AllWhole(listing)
    ensures InStep(Installed(LoadInto(c.memory, listing), c.tables), kek)
    ensures Alike(c.memory, LoadInto(c.memory, listing))
  {
    hide Observe, Decode, Complete, LoadInto, D.Readable, D.Saved, D.IsListing, Listed;
    var m, l, saved := c.memory, LoadInto(c.memory, listing), D.Saved(c.tables, kek);
    forall u, d | Has(m, u, d) ensures d in saved && saved[d].0 == u {
      SavedAs(m, saved, u, d);
    }
    LoadingCoherence(m, c.tables, kek, listing);
    CoherentAlike(m, l, saved);
  }

  lemma CoherentAlike(m: Sessions, n: Sessions, saved: Rows)
    requires Coherent(m, saved) && Coherent(n, saved)
    ensures Alike(m, n)
  {
    hide Observe;
    forall u ensures AlikeRatchets(Of(m, u), Of(n, u)) {
      forall d ensures d in Of(m, u) <==> d in Of(n, u) {
        assert d in Of(m, u) || d in Of(n, u) ==> d in saved && saved[d].0 == u;
      }
      forall d | d in Of(m, u) ensures Observe(Of(m, u)[d]) == Observe(Of(n, u)[d]) {
        assert saved[d] == (u, Observe(m[u][d])) && saved[d] == (u, Observe(n[u][d]));
      }
    }
  }

  /** A session of the account before whose device the new account has no row for: memory and rows disagree, and a send
      goes on with the ratchet of the account before. */
  lemma LeftoverSession(m: Sessions, t: D.Tables, kek: Term, listing: Listing, user: string, d: DeviceId, me: DeviceId)
    requires D.Readable(t, kek) && D.IsListing(listing, t, kek) && AllWhole(listing)
    requires Has(m, user, d) && d !in D.Saved(t, kek)
    ensures var l := LoadInto(m, listing);
      && !Coherent(l, D.Saved(t, kek)) && Has(l, user, d)
      && SentKeys(l, user, me)[d] == SentKeys(m, user, me)[d]
  {
    hide Decode, Complete, LoadInto, Coherent, D.Readable, D.Saved, D.IsListing, Listed, SentKey, SentHeader;
    ListingCarriesSaved(t, kek, listing);
    LoadedSessions(m, listing, D.Saved(t, kek));
    LoadingCoherence(m, t, kek, listing);
  }

  // ---- Room for the indices ----

  /** What the format can hold of the values an operation brings in. */
  ghost predicate FitsIn(op: Op) {
    match op
    case Works(Creates(_, offers, _, _)) => forall i | 0 <= i < |offers| :: IsInt32(offers[i].unset)
    case Works(Receives(_, h, _)) => Restart.HeaderFits(h)
    case _ => true
  }

  lemma WorkKeepsRoom(m: Sessions, op: Operation, left: nat)
    requires 0 < left < TWO_31 && AllRoomy(m, left) && FitsIn(Works(op))
    ensures AllRoomy(Does(m, op), left - 1)
  {
    hide AllRoomy;
    match op
    case Creates(user, offers, store, post) =>
      CreationKeepsRoom(m, user, offers, store, post, left);
      LessRoom(Does(m, op), left, left - 1);
    case Sends(user, _) => SendingKeepsRoom(m, user, left);
    case Receives(user, h, drawn) => ReceivingKeepsRoom(m, user, h, drawn, left);
  }

  lemma SavedFits(m: Sessions, op: Operation, left: nat)
    requires AllRoomy(Does(m, op), left)
    ensures var rows := RowsOf(op.user, SavedBy(m, op));
      forall d | d in rows :: Fits(rows[d].1) && Observe(rows[d].1) == rows[d].1
  {
    hide Restart.Roomy, CreateAll, AdvanceReceive, AllSent;
    var rows := RowsOf(op.user, SavedBy(m, op));
    forall d | d in rows ensures Fits(rows[d].1) && Observe(rows[d].1) == rows[d].1 {
      var n := Does(m, op);
      assert Has(n, op.user, d) && n[op.user][d] == SavedBy(m, op)[d];
      Restart.RoomyFits(n[op.user][d], left);
      ObserveTwice(n[op.user][d]);
    }
  }

  // ---- One operation, then a restart ----

  /** An operation, with the rows it writes, keeps memory and rows in step exactly when it is safe. */
  lemma WorkInStepExactly(kek: Term, c: Installed, op: Operation, c': Installed, left: nat)
    requires InStep(c, kek) && Next(kek, c, Works(op), c')
    requires 0 < left < TWO_31 && AllRoomy(c.memory, left) && FitsIn(Works(op))
    ensures D.Readable(c'.tables, kek) && AllRoomy(c'.memory, left - 1)
    ensures InStep(c', kek) <==> Safe(c.memory, op)
  {
    hide D.RowsWritten, D.Readable, D.Saved, Coherent, Safe, Does, SavedBy, AllRoomy, Fits, Observe, FitsIn;
    WorkKeepsRoom(c.memory, op, left);
    SavedFits(c.memory, op, left - 1);
    D.RowsReadBack(c.tables, c'.tables, kek, RowsOf(op.user, SavedBy(c.memory, op)));
    OneOperationCoherence(Copies(c.memory, D.Saved(c.tables, kek)), op);
  }

  /** A restart right after an operation gives back memory, as far as anything reads it, exactly when that was safe. */
  lemma RestartAfterExactly(kek: Term, c: Installed, op: Operation, c': Installed, left: nat, m: Sessions)
    requires InStep(c, kek) && Next(kek, c, Works(op), c') && LoadedFromRows(m, c'.tables, kek)
    requires 0 < left < TWO_31 && AllRoomy(c.memory, left) && FitsIn(Works(op))
    ensures Alike(c'.memory, m) <==> Safe(c.memory, op)
  {
    hide Next, LoadedFromRows, Alike, Safe, InStep, AllRoomy, FitsIn;
    WorkInStepExactly(kek, c, op, c', left);
    ReloadAlikeExactly(c', kek, m);
  }

  /** After the unsafe header, the next send of memory that was reloaded carries the old key, and of memory that was
      not, the new one. */
  lemma RestartForgetsEpoch(
      kek: Term, c: Installed, user: string, d: DeviceId, key: Term, drawn: nat, c': Installed,
      m: Sessions, me: DeviceId)
    requires InStep(c, kek) && Has(c.memory, user, d)
    requires key != c.memory[user][d].remoteDhPublic && -1 !in c.memory[user][d].skippedKeys
    requires c.memory[user][d].localDhPublic != Public(Box(drawn))
    requires Next(kek, c, Works(Receives(user, Header(key, 0, -1, d, ""), drawn)), c')
    requires LoadedFromRows(m, c'.tables, kek)
    ensures Has(c'.memory, user, d) && Has(m, user, d)
    ensures SentKeys(c'.memory, user, me)[d].1.dhPublic == Public(Box(drawn))
    ensures SentKeys(m, user, me)[d].1.dhPublic == c.memory[user][d].localDhPublic
  {
    hide D.Readable, D.Saved, LoadedFromRows, Coherent, Alike, D.RowsWritten;
    var s, h := c.memory[user][d], Header(key, 0, -1, d, "");
    ThrowsExactly(s, h, drawn);
    NothingWritten(c, kek, user, c'.tables);
    ReloadAlikeExactly(Installed(c.memory, c'.tables), kek, m);
    AlikeAt(c.memory, m, user, d);
    SameStep(s, m[user][d], Restart.Send);
    ThrownEpoch(s, h, drawn);
  }

  lemma ThrownEpoch(s: State, h: Header, drawn: nat)
    requires AdoptedThenThrown(s, h)
    ensures SentHeader(AdvanceReceive(s, h, drawn).0).dhPublic == Public(Box(drawn))
    ensures SentHeader(s).dhPublic == s.localDhPublic
  {
  }

  lemma AlikeAt(m: Sessions, n: Sessions, user: string, d: DeviceId)
    requires Alike(m, n) && Has(m, user, d)
    ensures Has(n, user, d) && Observe(n[user][d]) == Observe(m[user][d])
  {
    assert AlikeRatchets(Of(m, user), Of(n, user));
  }

  lemma NothingWritten(c: Installed, kek: Term, user: string, t: D.Tables)
    requires InStep(c, kek) && D.RowsWritten(c.tables, t, kek, RowsOf(user, map[]))
    ensures InStep(Installed(c.memory, t), kek)
  {
    hide D.RowsWritten, D.Readable, D.Saved, Coherent;
    D.RowsReadBack(c.tables, t, kek, RowsOf(user, map[]));
    assert D.Saved(t, kek) == D.Saved(c.tables, kek);
  }

  // ---- Whole runs ----

  ghost predicate AllSafe(states: seq<Installed>, ops: seq<Op>)
    requires |ops| < |states|
  {
    forall i | 0 <= i < |ops| && ops[i].Works? :: Safe(states[i].memory, ops[i].op)
  }

  /** Dropping every restart from a run changes no key, no header, no posted handshake and no error, except for which of
      the two lookups it was that found nothing. */
  lemma RestartsAreInvisible(kek: Term, states: seq<Installed>, ops: seq<Op>)
    requires IsRun(kek, states, ops) && InStep(states[0], kek) && AllSafe(states, ops)
    requires AllRoomy(states[0].memory, |ops|) && |ops| < TWO_31
    requires forall i | 0 <= i < |ops| :: FitsIn(ops[i])
    ensures SameAnswers(Told(states, ops, |ops|), MemoryRun(states[0].memory, ops).1)
    ensures Alike(states[|ops|].memory, MemoryRun(states[0].memory, ops).0)
    ensures InStep(states[|ops|], kek)
  {
    RunSoFar(kek, states, ops, |ops|);
    assert ops[..|ops|] == ops;
  }

  lemma {:induction false} RunSoFar(kek: Term, states: seq<Installed>, ops: seq<Op>, n: nat)
    requires IsRun(kek, states, ops) && InStep(states[0], kek) && AllSafe(states, ops)
    requires AllRoomy(states[0].memory, |ops|) && |ops| < TWO_31 && n <= |ops|
    requires forall i | 0 <= i < |ops| :: FitsIn(ops[i])
    ensures InStep(states[n], kek) && AllRoomy(states[n].memory, |ops| - n)
    ensures Alike(states[n].memory, MemoryRun(states[0].memory, ops[..n]).0)
    ensures SameAnswers(Told(states, ops, n), MemoryRun(states[0].memory, ops[..n]).1)
  {
    hide Next, InStep, AllRoomy, Alike, FitsIn, Safe, Does, Tells, SameAnswer;
    if n == 0 {
      AlikeItself(states[0].memory);
    } else {
      RunSoFar(kek, states, ops, n - 1);
      assert ops[..n][..n - 1] == ops[..n - 1];
      var c, c', kept := states[n - 1], states[n], MemoryRun(states[0].memory, ops[..n - 1]).0;
      assert Next(kek, c, ops[n - 1], c');
      match ops[n - 1] {
        case Works(w) =>
          WorkInStepExactly(kek, c, w, c', |ops| - (n - 1));
          WorksAlike(c.memory, kept, w);
          DoneNext(kek, c, w, c');
        case Restarts => RestartStep(kek, c, c', |ops| - (n - 1), kept);
      }
    }
  }

  lemma DoneNext(kek: Term, c: Installed, op: Operation, c': Installed)
    requires Next(kek, c, Works(op), c')
    ensures c'.memory == Does(c.memory, op)
  {
  }

  lemma RestartStep(kek: Term, c: Installed, c': Installed, left: nat, kept: Sessions)
    requires InStep(c, kek) && Next(kek, c, Restarts, c') && Alike(c.memory, kept)
    requires left > 0 && AllRoomy(c.memory, left)
    ensures InStep(c', kek) && AllRoomy(c'.memory, left - 1) && Alike(c'.memory, kept)
  {
    hide D.Readable, D.Saved, LoadedFromRows;
    ReloadAlikeExactly(c, kek, c'.memory);
    AlikeBetween(c.memory, kept, c'.memory);
    AlikeInStep(c, c', kek);
    forall u, d | Has(c'.memory, u, d) ensures Restart.Roomy(c'.memory[u][d], left - 1) {
      assert AlikeRatchets(Of(c.memory, u), Of(c'.memory, u));
      assert Has(c.memory, u, d);
      Restart.SameRoom(c.memory[u][d], c'.memory[u][d], left);
    }
  }

  lemma AlikeInStep(c: Installed, c': Installed, kek: Term)
    requires InStep(c, kek) && c'.tables == c.tables && Alike(c.memory, c'.memory)
    ensures InStep(c', kek)
  {
    hide D.Readable, D.Saved, Observe;
    var m, n, saved := c.memory, c'.memory, D.Saved(c.tables, kek);
    forall u, d | u in n && d in n[u] ensures d in saved && saved[d] == (u, Observe(n[u][d])) {
      assert AlikeRatchets(Of(m, u), Of(n, u));
      assert u in m && d in m[u];
    }
    forall d | d in saved ensures saved[d].0 in n && d in n[saved[d].0] {
      assert AlikeRatchets(Of(m, saved[d].0), Of(n, saved[d].0));
      assert saved[d].0 in m && d in m[saved[d].0];
    }
  }

  /** That exception happens exactly for users left without any device. */
  lemma RestartShowsInLookup(c: Installed, kek: Term, m: Sessions, user: string, h: Header, drawn: nat)
    requires InStep(c, kek) && LoadedFromRows(m, c.tables, kek)
    ensures ReceiveFrom(c.memory, user, h, drawn).1 != ReceiveFrom(m, user, h, drawn).1
       <==> user in c.memory && c.memory[user] == map[]
  {
    hide AdvanceReceive, Observe, D.Readable, D.Saved, D.IsListing, LoadInto, Coherent;
    var listing: Listing :| D.IsListing(listing, c.tables, kek) && AllWhole(listing) && m == LoadInto(map[], listing);
    ReloadRebuilds(c.memory, c.tables, kek, listing);
    RebuiltAlike(c.memory);
    ReceivesAlike(c.memory, m, user, h, drawn);
  }
}
