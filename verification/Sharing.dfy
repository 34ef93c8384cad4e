/** Sending a key-encryption key to every device of a user, and reading such messages. */
module Sharing {
  import opened Wrappers
  import opened Crypto
  import opened Ratchet
  import KeyBundle
  import opened Sessions
  import opened SessionManager
  import opened Database
  import Envelope
  import C = Coherence
  import Codec
  import Restart
  import Room
  import Sets

  datatype Message = Message(header: Header, ciphertext: Octets)

  // ---- Keeping a message ----

  /** The tables after keeping some messages: those have their rows, and every other one has the rows it had. */
  ghost predicate Kept(t: Tables, t': Tables, kek: Term, kept: map<string, Entry>) {
    forall uuid :: if uuid in kept then EntryWritten(t', kek, uuid, kept[uuid]) else SameMessage(t, t', uuid)
  }

  lemma KeptMore(t: Tables, t1: Tables, t2: Tables, kek: Term, kept: map<string, Entry>, more: map<string, Entry>)
    requires Kept(t, t1, kek, kept) && Kept(t1, t2, kek, more)
    ensures Kept(t, t2, kek, kept + more)
  {
    hide EntryWritten;
    forall uuid | uuid in kept && uuid !in more ensures EntryWritten(t2, kek, uuid, kept[uuid]) {
      EntryStays(t1, t2, kek, uuid, kept[uuid]);
    }
  }

  lemma KeptNothing(t: Tables, t': Tables, kek: Term)
    requires t'.messages == t.messages && t'.messageKeys == t.messageKeys
    ensures Kept(t, t', kek, map[])
  {
  }

  lemma EntryStays(t: Tables, t': Tables, kek: Term, uuid: string, e: Entry)
    requires EntryWritten(t, kek, uuid, e) && SameMessage(t, t', uuid)
    ensures EntryWritten(t', kek, uuid, e)
  {
    hide StoredMessage;
    forall k ensures StoredMessage(t', k, uuid) == StoredMessage(t, k, uuid) {
      SameMessageReads(t, t', k, uuid);
    }
  }

  /** What the lists of sent and received files are afterwards. */
  lemma ListedAfter(
      t: Tables, t': Tables, kek: Term, kept: map<string, Entry>, current: string, sent: bool, uuid: string,
      user: string)
    requires Kept(t, t', kek, kept)
    ensures Lists(t', current, sent, uuid, user) <==>
      if uuid in kept then kept[uuid].isSender == sent && kept[uuid].user == user && user != current
      else Lists(t, current, sent, uuid, user)
  {
    hide StoredMessage;
  }

  // ---- Ratchet rows and messages together ----

  /** The tables after saving some ratchets and keeping some messages. */
  ghost predicate Changed(t: Tables, t': Tables, kek: Term, rows: C.Rows, kept: map<string, Entry>) {
    RowsSaved(t, t', kek, rows) && Kept(t, t', kek, kept)
  }

  lemma ChangedMore(
      t: Tables, t1: Tables, t2: Tables, kek: Term, rows: C.Rows, more: C.Rows, kept: map<string, Entry>,
      keptMore: map<string, Entry>)
    requires Changed(t, t1, kek, rows, kept) && Changed(t1, t2, kek, more, keptMore)
    ensures Changed(t, t2, kek, rows + more, kept + keptMore)
  {
    hide Kept, RowsSaved;
    KeptMore(t, t1, t2, kek, kept, keptMore);
    RowsSavesCompose(t, t1, t2, kek, rows, more);
  }

  lemma ChangedRatchets(t: Tables, t': Tables, kek: Term, rows: C.Rows)
    requires RatchetsSaved(t, t', kek, rows)
    ensures Changed(t, t', kek, rows, map[])
  {
    KeptNothing(t, t', kek);
  }

  lemma ChangedMessages(t: Tables, t': Tables, kek: Term, kept: map<string, Entry>)
    requires t'.ratchets == t.ratchets && t'.ratchetKeys == t.ratchetKeys && Kept(t, t', kek, kept)
    ensures Changed(t, t', kek, map[], kept)
  {
    hide Kept, RowsSaved;
    SameRowsSaved(t, t', kek);
  }

  lemma SameRowsSaved(t: Tables, t': Tables, kek: Term)
    requires t'.ratchets == t.ratchets && t'.ratchetKeys == t.ratchetKeys
    ensures RowsSaved(t, t', kek, map[])
  {
    hide Readable, Saved, RowsWritten;
    SameRowsWritten(t, t', kek);
    SameSaved(t, t', kek);
    if Readable(t, kek) {
      NoRows(Saved(t, kek));
    }
  }

  lemma SameRowsWritten(t: Tables, t': Tables, kek: Term)
    requires t'.ratchets == t.ratchets && t'.ratchetKeys == t.ratchetKeys
    ensures RowsWritten(t, t', kek, map[])
  {
  }

  lemma SameSaved(t: Tables, t': Tables, kek: Term)
    requires t'.ratchets == t.ratchets && t'.ratchetKeys == t.ratchetKeys
    ensures Readable(t', kek) <==> Readable(t, kek)
    ensures Readable(t, kek) ==> Saved(t', kek) == Saved(t, kek)
  {
    hide Opened, Codec.Complete, Codec.Decode;
    SameOpened(t, t', kek);
  }

  lemma SameOpened(t: Tables, t': Tables, kek: Term)
    requires t'.ratchets == t.ratchets && t'.ratchetKeys == t.ratchetKeys
    ensures Opened(t', kek) == Opened(t, kek)
  {
    hide StoredBytes;
    forall d | d in t.ratchets ensures StoredBytes(t', kek, d) == StoredBytes(t, kek, d) {
      SameStoredBytes(t, t', kek, d);
    }
  }

  lemma SameStoredBytes(t: Tables, t': Tables, kek: Term, d: DeviceId)
    requires t'.ratchets == t.ratchets && t'.ratchetKeys == t.ratchetKeys && d in t.ratchets
    ensures StoredBytes(t', kek, d) == StoredBytes(t, kek, d)
  {
    hide DecryptSymmetricKey, Crypto.Open;
  }

  lemma ChangedNothing(t: Tables, kek: Term)
    ensures Changed(t, t, kek, map[], map[])
  {
    KeptNothing(t, t, kek);
    ChangedMessages(t, t, kek, map[]);
  }

  lemma NothingBefore<K, V>(m: map<K, V>)
    ensures map[] + m == m && m + map[] == m
  {
  }

  // ---- Keeping one message ----

  /** The rows of a message under a fresh key, which is wrapped under the KEK. */
  function MessageRows(
      t: Tables, uuid: string, user: string, device: DeviceId, plain: Octets, isSender: bool, kek: Term,
      key: Term, nonce: Term, keyNonce: Term): Tables
  {
    t.(messages := t.messages[uuid := MessageRow(user, device, nonce, Seal(key, nonce, plain), isSender)],
       messageKeys := t.messageKeys[uuid := KeyRow(user, device, keyNonce, EncryptSymmetricKey(key, keyNonce, kek))])
  }

  lemma MessageRowsReadBack(
      t: Tables, uuid: string, user: string, device: DeviceId, plain: Octets, isSender: bool, kek: Term,
      key: Term, nonce: Term, keyNonce: Term)
    ensures Kept(
      t, MessageRows(t, uuid, user, device, plain, isSender, kek, key, nonce, keyNonce), kek,
      map[uuid := Entry(user, device, plain, isSender)])
  {
    var t' := MessageRows(t, uuid, user, device, plain, isSender, kek, key, nonce, keyNonce);
    UnwrapWrapped(key, keyNonce, kek);
    OpenSeal(key, nonce, plain, key, nonce);
    forall k | k != kek ensures StoredMessage(t', k, uuid) == None {
      OpenSeal(kek, keyNonce, Bytes(key, KEY_LENGTH), k, keyNonce);
    }
  }

  method KeepMessage(
      db: Database, user: string, device: DeviceId, uuid: string, plain: Octets, isSender: bool, kek: Term)
    modifies db`messages, db`messageKeys
    ensures Kept(old(db.View()), db.View(), kek, map[uuid := Entry(user, device, plain, isSender)])
  {
    var key: Term, nonce: Term, keyNonce: Term := *, *, *;
    db.SaveMessageAndKey(
      user, device, uuid, Seal(key, nonce, plain), nonce, EncryptSymmetricKey(key, keyNonce, kek), keyNonce, isSender);
    MessageRowsReadBack(old(db.View()), uuid, user, device, plain, isSender, kek, key, nonce, keyNonce);
  }

  // ---- Reading messages ----

  /** A message as it comes from the server, with the seed that a new keypair would be drawn from. */
  datatype Incoming = Incoming(username: string, message: Message, drawn: nat)

  datatype ReadError = NoUser | NoDevice | NoKey | Unreadable(why: Envelope.Error)

  function Read(reply: Reply, ciphertext: Octets): Result<Octets, ReadError> {
    match reply
    case UserNotFound => Failure(NoUser)
    case DeviceNotFound => Failure(NoDevice)
    case Reply(KeyNotFound) => Failure(NoKey)
    case Reply(Received(key)) =>
      match Envelope.Unsealed(ciphertext, key)
      case Failure(e) => Failure(Unreadable(e))
      case Success(plain) => Success(plain)
  }

  function ReadOne(m: Sessions, i: Incoming): (Sessions, Result<Octets, ReadError>) {
    var (m', reply) := ReceiveFrom(m, i.username, i.message.header, i.drawn);
    (m', Read(reply, i.message.ciphertext))
  }

  /** How reading a message ends: by the lookup, by the ratchet throwing, or by what the ciphertext is. */
  lemma ReadEnds(m: Sessions, i: Incoming)
    ensures ReadOne(m, i).1 == Failure(NoUser) <==> i.username !in m.Keys
    ensures ReadOne(m, i).1 == Failure(NoDevice) <==>
      i.username in m.Keys && i.message.header.deviceId !in m[i.username].Keys
    ensures ReadOne(m, i).1 == Failure(NoKey) <==>
      && Has(m, i.username, i.message.header.deviceId)
      && var s := m[i.username][i.message.header.deviceId];
         AlreadyTaken(s, i.message.header) || AdoptedThenThrown(s, i.message.header)
    ensures forall key | ReceiveFrom(m, i.username, i.message.header, i.drawn).1 == Reply(Received(key)) ::
      && (forall e :: ReadOne(m, i).1 == Failure(Unreadable(e)) <==>
                      Envelope.Unsealed(i.message.ciphertext, key) == Failure(e))
      && (forall plain :: ReadOne(m, i).1 == Success(plain) <==>
                          Envelope.Unsealed(i.message.ciphertext, key) == Success(plain))
  {
    if Has(m, i.username, i.message.header.deviceId) {
      ThrowsExactly(m[i.username][i.message.header.deviceId], i.message.header, i.drawn);
    }
    hide AdvanceReceive, Envelope.Unsealed, AlreadyTaken, AdoptedThenThrown, Put;
  }

  /** The operation on the sessions that reading a message is, and the row it writes. */
  function ReceiptOf(i: Incoming): C.Operation {
    C.Receives(i.username, i.message.header, i.drawn)
  }

  ghost function RowsFor(m: Sessions, i: Incoming): C.Rows {
    C.RowsOf(i.username, C.SavedBy(m, ReceiptOf(i)))
  }

  datatype Reading = Reading(
    sessions: Sessions, rows: C.Rows, kept: map<string, Entry>, error: Option<ReadError>)

  /** update_messages: message after message, up to the first one that throws. */
  ghost function ReadAll(m: Sessions, incoming: seq<Incoming>): Reading {
    if incoming == [] then Reading(m, map[], map[], None)
    else
      var last := incoming[|incoming| - 1];
      var r := ReadAll(m, incoming[..|incoming| - 1]);
      if r.error.Some? then r
      else
        var (n, read) := ReadOne(r.sessions, last);
        Reading(n, r.rows + RowsFor(r.sessions, last), r.kept + KeptOf(last, read), ErrorOf(read))
  }

  lemma {:induction false} ErrorStops(m: Sessions, incoming: seq<Incoming>, i: nat)
    requires i <= |incoming| && ReadAll(m, incoming[..i]).error.Some?
    ensures ReadAll(m, incoming) == ReadAll(m, incoming[..i])
    decreases |incoming|
  {
    if i == |incoming| {
      assert incoming[..i] == incoming;
    } else {
      assert incoming[..|incoming| - 1][..i] == incoming[..i];
      ErrorStops(m, incoming[..|incoming| - 1], i);
    }
  }

  /** Decrypts a message and keeps it; nothing is written when it does not decrypt. */
  method KeepDecrypted(db: Database, i: Incoming, key: Term, kek: Term) returns (error: Option<ReadError>)
    modifies db`messages, db`messageKeys
    ensures var read := Read(Reply(Received(key)), i.message.ciphertext);
      && error == ErrorOf(read)
      && Kept(old(db.View()), db.View(), kek, KeptOf(i, read))
  {
    var plain := Envelope.DecryptMessageGivenKey(i.message.ciphertext, key);
    if plain.Failure? {
      return Some(Unreadable(plain.error));
    }
    KeepMessage(db, i.username, i.message.header.deviceId, i.message.header.fileUuid, plain.value, false, kek);
    return None;
  }

  function ErrorOf(read: Result<Octets, ReadError>): Option<ReadError> {
    if read.Failure? then Some(read.error) else None
  }

  /** What is kept of a message: as received from the device its header names. */
  function KeptOf(i: Incoming, read: Result<Octets, ReadError>): map<string, Entry> {
    if read.Success? then
      map[i.message.header.fileUuid := Entry(i.username, i.message.header.deviceId, read.value, false)]
    else map[]
  }

  /** What get_key_for_device saves is the row of the receipt. */
  lemma ReplySaved(t: Tables, t': Tables, kek: Term, m: Sessions, i: Incoming)
    requires var (n, reply) := ReceiveFrom(m, i.username, i.message.header, i.drawn);
      if reply.Reply? && reply.outcome.Received?
      then RatchetSaved(t, t', kek, i.username, i.message.header.deviceId, n[i.username][i.message.header.deviceId])
      else t' == t
    ensures Changed(t, t', kek, RowsFor(m, i), map[])
  {
    hide RatchetsSaved, ReceiveFrom, RowsFor, Kept, Changed;
    var (n, reply) := ReceiveFrom(m, i.username, i.message.header, i.drawn);
    RowsForIs(m, i);
    if reply.Reply? && reply.outcome.Received? {
      var d := i.message.header.deviceId;
      ChangedRatchets(t, t', kek, RowsFor(m, i));
    } else {
      ChangedNothing(t, kek);
    }
  }

  lemma RowsForIs(m: Sessions, i: Incoming)
    ensures var (n, reply) := ReceiveFrom(m, i.username, i.message.header, i.drawn);
      var d := i.message.header.deviceId;
      if reply.Reply? && reply.outcome.Received?
      then Has(n, i.username, d) && RowsFor(m, i) == map[d := (i.username, Codec.Observe(n[i.username][d]))]
      else RowsFor(m, i) == map[]
  {
    hide AdvanceReceive, Codec.Observe;
  }

  method ReadMessage(manager: RatchetSessionManager, i: Incoming, kek: Term) returns (error: Option<ReadError>)
    requires manager.Valid() && Restart.HeaderFits(i.message.header) && Room.AllRoomy(manager.sessions, 1)
    modifies manager`sessions, manager.Objects(), manager.db`ratchets, manager.db`ratchetKeys
    modifies manager.db`messages, manager.db`messageKeys
    ensures var (m, read) := ReadOne(old(manager.sessions), i);
      && manager.Valid() && manager.sessions == m && error == ErrorOf(read)
      && Changed(old(manager.db.View()), manager.db.View(), kek, RowsFor(old(manager.sessions), i), KeptOf(i, read))
  {
    hide ReceiveFrom, AdvanceReceive, Restart.Roomy, Restart.HeaderFits, RatchetSaved, Kept, Envelope.Unsealed, Changed,
      RowsFor;
    ghost var t, m := manager.db.View(), manager.sessions;
    var reply := manager.GetKeyForDevice(i.username, i.message.header, i.drawn, kek);
    ghost var t1 := manager.db.View();
    ReplySaved(t, t1, kek, m, i);
    match reply {
      case UserNotFound => return Some(NoUser);
      case DeviceNotFound => return Some(NoDevice);
      case Reply(KeyNotFound) => return Some(NoKey);
      case Reply(Received(key)) =>
        error := KeepDecrypted(manager.db, i, key, kek);
        ghost var kept := KeptOf(i, Read(reply, i.message.ciphertext));
        ChangedMessages(t1, manager.db.View(), kek, kept);
        ChangedMore(t, t1, manager.db.View(), kek, RowsFor(m, i), map[], map[], kept);
        NothingBefore(kept);
        NothingBefore(RowsFor(m, i));
    }
  }

  lemma ReadMore(m: Sessions, incoming: seq<Incoming>, i: nat)
    requires i < |incoming|
    ensures var r := ReadAll(m, incoming[..i]); var (n, read) := ReadOne(r.sessions, incoming[i]);
      r.error.None? ==>
        ReadAll(m, incoming[..i + 1])
        == Reading(n, r.rows + RowsFor(r.sessions, incoming[i]), r.kept + KeptOf(incoming[i], read), ErrorOf(read))
  {
    hide ReadOne, RowsFor;
    assert incoming[..i + 1][..i] == incoming[..i];
  }

  /** Reads messages one after the other; the first that throws ends the call, and what was read before it stays. */
  method UpdateMessages(manager: RatchetSessionManager, incoming: seq<Incoming>, kek: Term)
      returns (error: Option<ReadError>)
    requires manager.Valid() && Room.AllRoomy(manager.sessions, |incoming|)
    requires forall i | 0 <= i < |incoming| :: Restart.HeaderFits(incoming[i].message.header)
    modifies manager`sessions, manager.Objects(), manager.db`ratchets, manager.db`ratchetKeys
    modifies manager.db`messages, manager.db`messageKeys
    ensures var r := ReadAll(old(manager.sessions), incoming);
      && manager.Valid() && manager.sessions == r.sessions && error == r.error
      && Changed(old(manager.db.View()), manager.db.View(), kek, r.rows, r.kept)
  {
    hide ReadAll, ReadOne, Restart.Roomy, Restart.HeaderFits, Changed, RowsFor, Room.AllRoomy;
    ghost var start, t := manager.sessions, manager.db.View();
    ghost var r := Reading(start, map[], map[], None);
    ReadNone(start, incoming);
    ChangedNothing(t, kek);
    for i := 0 to |incoming|
      invariant manager.Valid() && Room.AllRoomy(manager.sessions, |incoming| - i)
      invariant r == ReadAll(start, incoming[..i]) && r.sessions == manager.sessions && r.error == None
      invariant Changed(t, manager.db.View(), kek, r.rows, r.kept)
    {
      ghost var t1 := manager.db.View();
      RoomyForOne(manager.sessions, incoming[i], |incoming| - i);
      error := ReadMessage(manager, incoming[i], kek);
      ReadMore(start, incoming, i);
      ghost var read := ReadOne(r.sessions, incoming[i]).1;
      ChangedMore(
        t, t1, manager.db.View(), kek, r.rows, RowsFor(r.sessions, incoming[i]), r.kept, KeptOf(incoming[i], read));
      r := ReadAll(start, incoming[..i + 1]);
      if error.Some? {
        ErrorStops(start, incoming, i + 1);
        return;
      }
    }
    assert incoming[..|incoming|] == incoming;
    return None;
  }

  /** The i-th message is read, and kept under the identifier its header carries. */
  ghost predicate ReadFor(m: Sessions, incoming: seq<Incoming>, i: nat, uuid: string)
    requires i < |incoming|
  {
    && ReadAll(m, incoming[..i]).error.None? && incoming[i].message.header.fileUuid == uuid
    && ReadOne(ReadAll(m, incoming[..i]).sessions, incoming[i]).1.Success?
  }

  ghost predicate LastFor(m: Sessions, incoming: seq<Incoming>, i: nat, uuid: string)
    requires i < |incoming|
  {
    ReadFor(m, incoming, i, uuid) && forall j | i < j < |incoming| :: !ReadFor(m, incoming, j, uuid)
  }

  /** What stays for an identifier is the last message read for it: what it says, received, from the user it came from
      and the device its header names; without such a message nothing is kept. */
  lemma {:induction false} LastReadStays(m: Sessions, incoming: seq<Incoming>, uuid: string)
    ensures uuid in ReadAll(m, incoming).kept <==> exists i | 0 <= i < |incoming| :: LastFor(m, incoming, i, uuid)
    ensures forall i | 0 <= i < |incoming| && LastFor(m, incoming, i, uuid) ::
      var read := ReadOne(ReadAll(m, incoming[..i]).sessions, incoming[i]).1;
      && uuid in ReadAll(m, incoming).kept
      && ReadAll(m, incoming).kept[uuid]
         == Entry(incoming[i].username, incoming[i].message.header.deviceId, read.value, false)
  {
    hide ReadAll, ReadFor, LastFor, ReadOne;
    if incoming == [] {
      ReadNone(m, incoming);
    } else {
      var last := |incoming| - 1;
      var init := incoming[..last];
      LastReadStays(m, init, uuid);
      KeptStep(m, incoming, uuid);
      LastOfAll(m, incoming, uuid);
      forall i | 0 <= i < last
        ensures LastFor(m, incoming, i, uuid) <==> LastFor(m, init, i, uuid) && !ReadFor(m, incoming, last, uuid)
        ensures incoming[..i] == init[..i]
      {
        LastForStep(m, incoming, i, uuid);
      }
      assert incoming[..last] == init;
      if uuid in ReadAll(m, init).kept && !ReadFor(m, incoming, last, uuid) {
        var i :| 0 <= i < last && LastFor(m, init, i, uuid);
        assert LastFor(m, incoming, i, uuid);
      }
    }
  }

  lemma LastOfAll(m: Sessions, incoming: seq<Incoming>, uuid: string)
    requires incoming != []
    ensures LastFor(m, incoming, |incoming| - 1, uuid) <==> ReadFor(m, incoming, |incoming| - 1, uuid)
  {
  }

  lemma LastForStep(m: Sessions, incoming: seq<Incoming>, i: nat, uuid: string)
    requires i < |incoming| - 1
    ensures var last := |incoming| - 1; var init := incoming[..last];
      LastFor(m, incoming, i, uuid) <==> LastFor(m, init, i, uuid) && !ReadFor(m, incoming, last, uuid)
  {
    hide ReadAll, ReadOne;
    var last := |incoming| - 1;
    forall j | 0 <= j < last ensures ReadFor(m, incoming, j, uuid) <==> ReadFor(m, incoming[..last], j, uuid) {
      assert incoming[..j] == incoming[..last][..j];
    }
    hide ReadFor;
  }

  lemma KeptStep(m: Sessions, incoming: seq<Incoming>, uuid: string)
    requires incoming != []
    ensures var last := |incoming| - 1; var before, after := ReadAll(m, incoming[..last]), ReadAll(m, incoming);
      var i := incoming[last];
      if ReadFor(m, incoming, last, uuid) then
        && uuid in after.kept
        && after.kept[uuid]
           == Entry(i.username, i.message.header.deviceId, ReadOne(before.sessions, i).1.value, false)
      else
        && (uuid in after.kept <==> uuid in before.kept)
        && (uuid in after.kept ==> after.kept[uuid] == before.kept[uuid])
  {
    hide ReadOne, RowsFor;
  }

  lemma ReadNone(m: Sessions, incoming: seq<Incoming>)
    ensures ReadAll(m, incoming[..0]) == ReadAll(m, []) == Reading(m, map[], map[], None)
  {
  }

  /** Every receipt that the call comes to is safe. */
  ghost predicate SafeReads(m: Sessions, incoming: seq<Incoming>) {
    forall i | 0 <= i < |incoming| :: ReadAll(m, incoming[..i]).error.None? ==>
      C.Safe(ReadAll(m, incoming[..i]).sessions, ReceiptOf(incoming[i]))
  }

  lemma SafeReadsStep(m: Sessions, incoming: seq<Incoming>)
    requires incoming != []
    ensures var init, last := incoming[..|incoming| - 1], incoming[|incoming| - 1]; var r := ReadAll(m, init);
      SafeReads(m, incoming)
      <==> SafeReads(m, init) && (r.error.None? ==> C.Safe(r.sessions, ReceiptOf(last)))
  {
    hide C.Safe, ReadAll;
    var init := incoming[..|incoming| - 1];
    assert forall i | 0 <= i < |init| :: init[..i] == incoming[..i];
  }

  /** An unsafe receipt throws, which ends the call. */
  lemma UnsafeThrows(m: Sessions, i: Incoming)
    requires !C.Safe(m, ReceiptOf(i))
    ensures ErrorOf(ReadOne(m, i).1).Some?
  {
    hide AdvanceReceive;
    ThrowsExactly(m[i.username][i.message.header.deviceId], i.message.header, i.drawn);
  }

  lemma {:induction false} SafeBeforeErrors(m: Sessions, incoming: seq<Incoming>)
    requires ReadAll(m, incoming).error.None?
    ensures SafeReads(m, incoming)
  {
    hide C.Safe, ReadOne, ErrorOf;
    if incoming != [] {
      var init, last := incoming[..|incoming| - 1], incoming[|incoming| - 1];
      SafeBeforeErrors(m, init);
      SafeReadsStep(m, incoming);
      if !C.Safe(ReadAll(m, init).sessions, ReceiptOf(last)) {
        UnsafeThrows(ReadAll(m, init).sessions, last);
      }
    }
  }

  /** Reading messages, with the rows that writes, keeps memory and rows in step exactly when every receipt it comes
      to is safe. */
  lemma {:induction false} ReadingCoherence(m: Sessions, saved: C.Rows, incoming: seq<Incoming>)
    requires C.Coherent(m, saved)
    ensures var r := ReadAll(m, incoming); C.Coherent(r.sessions, saved + r.rows) <==> SafeReads(m, incoming)
  {
    hide C.Coherent, C.Safe, C.SavedBy, C.RowsOf, Read, SafeReads;
    if incoming == [] {
      NoRows(saved);
      SafeBeforeErrors(m, incoming);
    } else {
      var init, last := incoming[..|incoming| - 1], incoming[|incoming| - 1];
      var r := ReadAll(m, init);
      ReadingCoherence(m, saved, init);
      SafeReadsStep(m, incoming);
      if r.error.None? {
        SafeBeforeErrors(m, init);
        C.OneOperationCoherence(C.Copies(r.sessions, saved + r.rows), ReceiptOf(last));
        RowsAssociate(saved, r.rows, RowsFor(r.sessions, last));
      }
    }
  }

  lemma RoomyForOne(m: Sessions, i: Incoming, left: nat)
    requires left > 0 && Room.AllRoomy(m, left) && Restart.HeaderFits(i.message.header)
    ensures Room.AllRoomy(m, 1) && Room.AllRoomy(ReadOne(m, i).0, left - 1)
  {
    hide Restart.HeaderFits;
    Room.ReceivingKeepsRoom(m, i.username, i.message.header, i.drawn, left);
  }

  // ---- Sending ----

  ghost predicate Carries(m: Message, pair: (Term, Header), uuid: string, fKek: Term) {
    && m.header == pair.1.(fileUuid := Envelope.UuidField(uuid))
    && Envelope.IsSealed(m.ciphertext, Bytes(fKek, KEY_LENGTH), pair.0)
  }

  ghost predicate PostsFor(
      posted: seq<(DeviceId, Message)>, keys: map<DeviceId, (Term, Header)>, devices: set<DeviceId>, uuid: string,
      fKek: Term)
  {
    && (forall i, j | 0 <= i < j < |posted| :: posted[i].0 != posted[j].0)
    && (forall i | 0 <= i < |posted| ::
          posted[i].0 in devices && posted[i].0 in keys && Carries(posted[i].1, keys[posted[i].0], uuid, fKek))
    && (forall d | d in devices :: exists i | 0 <= i < |posted| :: posted[i].0 == d)
  }

  /** One message for every device, each carrying the key-encryption key under the key of its device. */
  method MessagesFor(keys: map<DeviceId, (Term, Header)>, uuid: string, fKek: Term)
      returns (posted: seq<(DeviceId, Message)>)
    ensures PostsFor(posted, keys, keys.Keys, uuid, fKek)
  {
    posted := [];
    var remaining := keys.Keys;
    while remaining != {}
      invariant remaining <= keys.Keys
      invariant PostsFor(posted, keys, keys.Keys - remaining, uuid, fKek)
    {
      Sets.EmptyWithoutElements(remaining);
      var device :| device in remaining;
      var (key, header) := keys[device];
      var ciphertext := Envelope.EncryptMessageGivenKey(Bytes(fKek, KEY_LENGTH), key);
      var field := new char[Envelope.UUID_FIELD];
      Envelope.StoreUuid(field, uuid);
      var message := Message(header.(fileUuid := Envelope.CString(field[..])), ciphertext);
      PostsForMore(posted, keys, keys.Keys - remaining, uuid, fKek, device, message);
      posted := posted + [(device, message)];
      remaining := remaining - {device};
      assert keys.Keys - remaining == keys.Keys - (remaining + {device}) + {device};
    }
    assert keys.Keys - remaining == keys.Keys;
  }

  lemma PostsForMore(
      posted: seq<(DeviceId, Message)>, keys: map<DeviceId, (Term, Header)>, devices: set<DeviceId>,
      uuid: string, fKek: Term,
      d: DeviceId, m: Message)
    requires PostsFor(posted, keys, devices, uuid, fKek) && d in keys && d !in devices
    requires Carries(m, keys[d], uuid, fKek)
    ensures PostsFor(posted + [(d, m)], keys, devices + {d}, uuid, fKek)
  {
    var more := posted + [(d, m)];
    forall e | e in devices + {d} ensures exists i | 0 <= i < |more| :: more[i].0 == e {
      if e == d {
        assert more[|posted|].0 == d;
      } else {
        var i :| 0 <= i < |posted| && posted[i].0 == e;
        assert more[i].0 == e;
      }
    }
  }

  /** The sender's own copies: one row per message, all under the same file, so the last one stays. */
  method KeepCopies(db: Database, user: string, posted: seq<(DeviceId, Message)>, field: string, fKek: Term, kek: Term)
    requires forall i | 0 <= i < |posted| :: posted[i].1.header.fileUuid == field
    modifies db`messages, db`messageKeys
    ensures Kept(old(db.View()), db.View(), kek, CopyOf(posted, user, field, fKek))
  {
    hide Kept;
    ghost var t := db.View();
    KeptNothing(t, t, kek);
    for i := 0 to |posted|
      invariant Kept(t, db.View(), kek, CopyOf(posted[..i], user, field, fKek))
    {
      ghost var t1 := db.View();
      KeepMessage(db, user, posted[i].0, posted[i].1.header.fileUuid, Bytes(fKek, KEY_LENGTH), true, kek);
      ghost var copy := map[field := Entry(user, posted[i].0, Bytes(fKek, KEY_LENGTH), true)];
      KeptMore(t, t1, db.View(), kek, CopyOf(posted[..i], user, field, fKek), copy);
      assert CopyOf(posted[..i], user, field, fKek) + copy == CopyOf(posted[..i + 1], user, field, fKek);
    }
    assert posted[..|posted|] == posted;
  }

  /** The copy a sender keeps: none if nothing is sent, else as sent to the user, at the device posted to last. */
  function CopyOf(posted: seq<(DeviceId, Message)>, user: string, field: string, fKek: Term): map<string, Entry> {
    if posted == [] then map[]
    else map[field := Entry(user, posted[|posted| - 1].0, Bytes(fKek, KEY_LENGTH), true)]
  }

  /** Posts the key-encryption key of a file to every device of a user, and keeps a copy unless there is no device. */
  method AllowAccessToFile(
      manager: RatchetSessionManager, user: string, uuid: string, fKek: Term, me: DeviceId, fetched: Option<seq<Offer>>,
      store: KeyBundle.KeyStore, kek: Term)
      returns (messages: Result<seq<(DeviceId, Message)>, KeyBundle.Error>, handshakes: seq<DeviceId>)
    requires manager.Valid()
    requires fetched.Some? ==> forall i | 0 <= i < |fetched.value| :: Codec.IsInt32(fetched.value[i].unset)
    requires forall d | d in Of(manager.sessions, user) :: Restart.Roomy(Of(manager.sessions, user)[d], 1)
    modifies manager`ratchets, manager`sessions, manager`places, manager.Objects()
    modifies manager.db`ratchets, manager.db`ratchetKeys, manager.db`messages, manager.db`messageKeys
    ensures manager.Valid()
    ensures var f := WithFetched(old(manager.sessions), user, fetched, store);
      var keys, rows := SentKeys(f.sessions, user, me), FetchRows(old(manager.sessions), user, f);
      && handshakes == f.posted
      && if f.error.Some? then
           && messages == Failure(f.error.value) && manager.sessions == f.sessions
           && Changed(old(manager.db.View()), manager.db.View(), kek, rows, map[])
         else
           && messages.Success? && PostsFor(messages.value, keys, keys.Keys, uuid, fKek)
           && manager.sessions == SendAll(f.sessions, user)
           && Changed(old(manager.db.View()), manager.db.View(), kek, rows,
                      CopyOf(messages.value, user, Envelope.UuidField(uuid), fKek))
  {
    hide SentKeys, SendAll, CreateAll, Kept, Restart.Roomy, Codec.IsInt32, Changed, FetchRows, RatchetsSaved;
    ghost var t, rows :=
      manager.db.View(), FetchRows(manager.sessions, user, WithFetched(manager.sessions, user, fetched, store));
    var keys: Result<map<DeviceId, (Term, Header)>, KeyBundle.Error>;
    keys, handshakes := manager.GetKeysForIdentity(user, me, fetched, store, kek);
    ghost var t1 := manager.db.View();
    ChangedRatchets(t, t1, kek, rows);
    if keys.Failure? {
      return Failure(keys.error), handshakes;
    }
    var posted := MessagesFor(keys.value, uuid, fKek);
    KeepCopies(manager.db, user, posted, Envelope.UuidField(uuid), fKek, kek);
    messages := Success(posted);
    ghost var kept := CopyOf(posted, user, Envelope.UuidField(uuid), fKek);
    ChangedMessages(t1, manager.db.View(), kek, kept);
    ChangedMore(t, t1, manager.db.View(), kek, rows, map[], map[], kept);
    NothingBefore(kept);
    NothingBefore(rows);
  }

  /** The copy of a file sent under some keys: with one of the devices that were posted to. */
  ghost predicate IsCopy(
      copy: map<string, Entry>, keys: map<DeviceId, (Term, Header)>, user: string, uuid: string, fKek: Term)
  {
    if keys == map[] then copy == map[]
    else
      exists d | d in keys :: copy == map[Envelope.UuidField(uuid) := Entry(user, d, Bytes(fKek, KEY_LENGTH), true)]
  }

  lemma CopyIsCopy(
      posted: seq<(DeviceId, Message)>, keys: map<DeviceId, (Term, Header)>, user: string, uuid: string, fKek: Term)
    requires PostsFor(posted, keys, keys.Keys, uuid, fKek)
    ensures IsCopy(CopyOf(posted, user, Envelope.UuidField(uuid), fKek), keys, user, uuid, fKek)
  {
    PostsEmpty(posted, keys, uuid, fKek);
    if posted != [] {
      assert posted[|posted| - 1].0 in keys;
    }
  }

  lemma PostsEmpty(posted: seq<(DeviceId, Message)>, keys: map<DeviceId, (Term, Header)>, uuid: string, fKek: Term)
    requires PostsFor(posted, keys, keys.Keys, uuid, fKek)
    ensures posted == [] <==> keys == map[]
  {
    if posted != [] {
      assert posted[0].0 in keys;
    }
    if keys != map[] {
      Sets.EmptyWithoutElements(keys.Keys);
      var d :| d in keys;
      assert exists i | 0 <= i < |posted| :: posted[i].0 == d;
    }
  }

  /** An upload under a fresh key-encryption key, then access for the user; the server names the file. */
  method SendFileTo(
      manager: RatchetSessionManager, user: string, file: Octets, metadata: Octets, uuid: string, fKek: Term,
      me: DeviceId,
      fetched: Option<seq<Offer>>, store: KeyBundle.KeyStore, kek: Term)
      returns (
        stored: Envelope.StoredFile,
        messages: Result<seq<(DeviceId, Message)>, KeyBundle.Error>, handshakes: seq<DeviceId>)
    requires manager.Valid()
    requires fetched.Some? ==> forall i | 0 <= i < |fetched.value| :: Codec.IsInt32(fetched.value[i].unset)
    requires forall d | d in Of(manager.sessions, user) :: Restart.Roomy(Of(manager.sessions, user)[d], 1)
    modifies manager`ratchets, manager`sessions, manager`places, manager.Objects()
    modifies manager.db`ratchets, manager.db`ratchetKeys, manager.db`messages, manager.db`messageKeys
    ensures manager.Valid() && Envelope.IsUpload(stored, file, metadata, fKek)
    ensures var f := WithFetched(old(manager.sessions), user, fetched, store);
      var keys := SentKeys(f.sessions, user, me);
      && handshakes == f.posted && (messages.Failure? <==> f.error.Some?)
      && manager.sessions == (if f.error.Some? then f.sessions else SendAll(f.sessions, user))
      && (messages.Success? ==> PostsFor(messages.value, keys, keys.Keys, uuid, fKek))
      && Changed(old(manager.db.View()), manager.db.View(), kek, FetchRows(old(manager.sessions), user, f),
                 if messages.Failure? then map[]
                 else CopyOf(messages.value, user, Envelope.UuidField(uuid), fKek))
  {
    hide SentKeys, SendAll, CreateAll, Changed, FetchRows, Restart.Roomy, Codec.IsInt32, PostsFor;
    stored := Envelope.UploadFile(file, metadata, fKek);
    messages, handshakes := AllowAccessToFile(manager, user, uuid, fKek, me, fetched, store, kek);
  }
}
