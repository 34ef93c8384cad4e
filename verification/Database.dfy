/** The tables of the local database: each primary key holds one row, which INSERT OR REPLACE overwrites.
    Secrets are sealed under a one-off key, and that key under the KEK. */
module Database {
  import opened Wrappers
  import opened Crypto
  import Sets
  import opened Ratchet
  import opened Codec

  datatype RatchetRow = RatchetRow(username: string, nonce: Term, data: Octets)

  datatype KeyRow = KeyRow(username: string, device: DeviceId, nonce: Term, encryptedKey: Octets)

  datatype MessageRow =
    MessageRow(username: string, fromDevice: DeviceId, nonce: Term, encrypted: Octets, isSender: bool)

  /** ratchets and ratchetKeys are keyed by device alone, messages and messageKeys by file. */
  datatype Tables = Tables(
    ratchets: map<DeviceId, RatchetRow>, ratchetKeys: map<DeviceId, KeyRow>,
    messages: map<string, MessageRow>, messageKeys: map<string, KeyRow>)

  // ---- Wrapping ----

  function EncryptSymmetricKey(key: Term, nonce: Term, kek: Term): Octets {
    Seal(kek, nonce, Bytes(key, KEY_LENGTH))
  }

  function DecryptSymmetricKey(encrypted: Octets, nonce: Term, kek: Term): Option<Term> {
    match Crypto.Open(kek, nonce, encrypted)
    case None => None
    case Some(plain) => Some(Word(plain))
  }

  lemma UnwrapWrapped(key: Term, nonce: Term, kek: Term)
    ensures DecryptSymmetricKey(EncryptSymmetricKey(key, nonce, kek), nonce, kek) == Some(key)
  {
    OpenSeal(kek, nonce, Bytes(key, KEY_LENGTH), kek, nonce);
    WordOfBytes(key, KEY_LENGTH);
  }

  // ---- Ratchet rows ----

  /** What get_all_decrypted_ratchets makes of one row: nothing, if its key row is missing, belongs to another user
      or does not decrypt. */
  function StoredBytes(t: Tables, kek: Term, d: DeviceId): Option<Octets>
    requires d in t.ratchets
  {
    var row := t.ratchets[d];
    if d !in t.ratchetKeys || t.ratchetKeys[d].username != row.username then None
    else
      match DecryptSymmetricKey(t.ratchetKeys[d].encryptedKey, t.ratchetKeys[d].nonce, kek)
      case None => None
      case Some(key) => Crypto.Open(key, row.nonce, row.data)
  }

  /** A row decrypts exactly when there is a key row for the same device and the same user, what that holds was sealed
      under the KEK, and the row itself under what is in there. */
  lemma RatchetRowOpens(t: Tables, kek: Term, d: DeviceId, bytes: Octets)
    requires d in t.ratchets
    ensures StoredBytes(t, kek, d) == Some(bytes) <==>
      && d in t.ratchetKeys && t.ratchetKeys[d].username == t.ratchets[d].username
      && exists key ::
           && t.ratchetKeys[d].encryptedKey == Seal(kek, t.ratchetKeys[d].nonce, key)
           && t.ratchets[d].data == Seal(Word(key), t.ratchets[d].nonce, bytes)
  {
    if d in t.ratchetKeys {
      TwoLayers(
        t.ratchetKeys[d].encryptedKey, t.ratchetKeys[d].nonce, kek, t.ratchets[d].data, t.ratchets[d].nonce, bytes);
    }
  }

  lemma TwoLayers(
      encryptedKey: Octets, keyNonce: Term, kek: Term, data: Octets, nonce: Term, plain: Octets)
    ensures var key := DecryptSymmetricKey(encryptedKey, keyNonce, kek);
      && key.Some? && Crypto.Open(key.value, nonce, data) == Some(plain)
      <==> exists key :: encryptedKey == Seal(kek, keyNonce, key) && data == Seal(Word(key), nonce, plain)
  {
    forall key | encryptedKey == Seal(kek, keyNonce, key)
      ensures Crypto.Open(kek, keyNonce, encryptedKey) == Some(key)
    {
      OpensExactly(kek, keyNonce, encryptedKey, key);
    }
    var key := Crypto.Open(kek, keyNonce, encryptedKey);
    if key.Some? {
      OpensExactly(kek, keyNonce, encryptedKey, key.value);
      OpensExactly(Word(key.value), nonce, data, plain);
    }
  }

  /** The rows that decrypt: by device, the user and the bytes. */
  function Opened(t: Tables, kek: Term): map<DeviceId, (string, Octets)> {
    map d | d in t.ratchets && StoredBytes(t, kek, d).Some? :: (t.ratchets[d].username, StoredBytes(t, kek, d).value)
  }

  /** Every row that decrypts holds a whole ratchet. */
  ghost predicate AllComplete(rows: map<DeviceId, (string, Octets)>) {
    forall d | d in rows :: Complete(rows[d].1)
  }

  type Rows = map<DeviceId, (string, State)>

  ghost function AllDecoded(rows: map<DeviceId, (string, Octets)>): Rows
    requires AllComplete(rows)
  {
    map d | d in rows :: (rows[d].0, Decode(rows[d].1))
  }

  ghost predicate Readable(t: Tables, kek: Term) {
    AllComplete(Opened(t, kek))
  }

  /** The ratchets the tables hold: by device, the user and the state a reload gives. */
  ghost function Saved(t: Tables, kek: Term): Rows
    requires Readable(t, kek)
  {
    AllDecoded(Opened(t, kek))
  }

  // ---- Message rows ----

  function StoredMessage(t: Tables, kek: Term, uuid: string): Option<Octets> {
    if uuid !in t.messages || uuid !in t.messageKeys then None
    else
      match DecryptSymmetricKey(t.messageKeys[uuid].encryptedKey, t.messageKeys[uuid].nonce, kek)
      case None => None
      case Some(key) => Crypto.Open(key, t.messages[uuid].nonce, t.messages[uuid].encrypted)
  }

  /** The same for a message, whose key row is found by its file alone. */
  lemma MessageRowOpens(t: Tables, kek: Term, uuid: string, plain: Octets)
    ensures StoredMessage(t, kek, uuid) == Some(plain) <==>
      && uuid in t.messages && uuid in t.messageKeys
      && exists key ::
           && t.messageKeys[uuid].encryptedKey == Seal(kek, t.messageKeys[uuid].nonce, key)
           && t.messages[uuid].encrypted == Seal(Word(key), t.messages[uuid].nonce, plain)
  {
    if uuid in t.messages && uuid in t.messageKeys {
      TwoLayers(
        t.messageKeys[uuid].encryptedKey, t.messageKeys[uuid].nonce, kek,
        t.messages[uuid].encrypted, t.messages[uuid].nonce, plain);
    }
  }

  /** A kept message: whose it is, which device it came from or went to, what it says, and which way it went. */
  datatype Entry = Entry(user: string, device: DeviceId, plain: Octets, isSender: bool)

  /** The rows of a file hold an entry, which opens under the KEK and under no other key. */
  ghost predicate EntryWritten(t: Tables, kek: Term, uuid: string, e: Entry) {
    && uuid in t.messages && t.messages[uuid].username == e.user && t.messages[uuid].fromDevice == e.device
    && t.messages[uuid].isSender == e.isSender
    && forall k :: StoredMessage(t, k, uuid) == if k == kek then Some(e.plain) else None
  }

  ghost predicate SameMessage(t: Tables, t': Tables, uuid: string) {
    && (uuid in t'.messages <==> uuid in t.messages)
    && (uuid in t.messages ==> t'.messages[uuid] == t.messages[uuid])
    && (uuid in t'.messageKeys <==> uuid in t.messageKeys)
    && (uuid in t.messageKeys ==> t'.messageKeys[uuid] == t.messageKeys[uuid])
  }

  lemma SameMessageReads(t: Tables, t': Tables, kek: Term, uuid: string)
    requires SameMessage(t, t', uuid)
    ensures StoredMessage(t', kek, uuid) == StoredMessage(t, kek, uuid)
  {
    hide DecryptSymmetricKey, Crypto.Open;
  }

  /** A file is listed for a user other than the current one, as sent or as received. */
  predicate Lists(t: Tables, current: string, sent: bool, uuid: string, user: string) {
    uuid in t.messages && t.messages[uuid].isSender == sent && t.messages[uuid].username == user && user != current
  }

  /** A scan that lists exactly those files, each once. */
  ghost predicate IsFileListing(
      list: seq<(string, string)>, t: Tables, current: string, sent: bool, scanned: set<string>)
  {
    && (forall i, j | 0 <= i < j < |list| :: list[i].0 != list[j].0)
    && (forall i | 0 <= i < |list| :: list[i].0 in scanned && Lists(t, current, sent, list[i].0, list[i].1))
    && (forall uuid, user | uuid in scanned && Lists(t, current, sent, uuid, user) :: (uuid, user) in list)
  }

  lemma ListMore(
      list: seq<(string, string)>, t: Tables, current: string, sent: bool, scanned: set<string>, uuid: string)
    requires IsFileListing(list, t, current, sent, scanned) && uuid in t.messages && uuid !in scanned
    ensures var row := t.messages[uuid];
      IsFileListing(
        if row.username != current && row.isSender == sent then list + [(uuid, row.username)] else list,
        t, current, sent, scanned + {uuid})
  {
    var row := t.messages[uuid];
    if row.username != current && row.isSender == sent {
      var more := list + [(uuid, row.username)];
      assert forall e | e in list :: e in more;
      assert more[|list|] in more;
    }
  }

  function SealedRow(user: string, key: Term, nonce: Term, data: Octets): RatchetRow {
    RatchetRow(user, nonce, Seal(key, nonce, data))
  }

  function SealedKeyRow(user: string, d: DeviceId, key: Term, nonce: Term, kek: Term): KeyRow {
    KeyRow(user, d, nonce, EncryptSymmetricKey(key, nonce, kek))
  }

  lemma SealedRowsOpen(
      t: Tables, kek: Term, user: string, d: DeviceId, data: Octets, key: Term, nonce: Term, keyNonce: Term)
    requires d in t.ratchets && t.ratchets[d] == SealedRow(user, key, nonce, data)
    requires d in t.ratchetKeys && t.ratchetKeys[d] == SealedKeyRow(user, d, key, keyNonce, kek)
    ensures StoredBytes(t, kek, d) == Some(data)
  {
    UnwrapWrapped(key, keyNonce, kek);
    OpenSeal(key, nonce, data, key, nonce);
  }

  // ---- Writing several rows ----

  ghost predicate RowWrittenWith(
      t: Tables, kek: Term, user: string, d: DeviceId, s: State, order: seq<int>, key: Term, nonce: Term,
      keyNonce: Term)
  {
    && IsOrder(order, s.skippedKeys)
    && d in t.ratchets && t.ratchets[d] == SealedRow(user, key, nonce, Encode(s, order))
    && d in t.ratchetKeys && t.ratchetKeys[d] == SealedKeyRow(user, d, key, keyNonce, kek)
  }

  /** The rows of a device hold some encoding of a ratchet, sealed under some key wrapped under the KEK. */
  ghost predicate RowWritten(t: Tables, kek: Term, user: string, d: DeviceId, s: State) {
    exists order, key, nonce, keyNonce :: RowWrittenWith(t, kek, user, d, s, order, key, nonce, keyNonce)
  }

  ghost predicate SameRow(t: Tables, t': Tables, d: DeviceId) {
    && (d in t'.ratchets <==> d in t.ratchets) && (d in t.ratchets ==> t'.ratchets[d] == t.ratchets[d])
    && (d in t'.ratchetKeys <==> d in t.ratchetKeys) && (d in t.ratchetKeys ==> t'.ratchetKeys[d] == t.ratchetKeys[d])
  }

  /** The rows of some devices have been written, and no other one. */
  ghost predicate RowsWritten(t: Tables, t': Tables, kek: Term, rows: Rows) {
    forall d :: if d in rows then RowWritten(t', kek, rows[d].0, d, rows[d].1) else SameRow(t, t', d)
  }

  /** The ratchet rows after saving some ratchets: theirs are written and read back, every other one is as before. */
  ghost predicate RowsSaved(t: Tables, t': Tables, kek: Term, rows: Rows) {
    && RowsWritten(t, t', kek, rows)
    && (Readable(t, kek) ==> Readable(t', kek) && Saved(t', kek) == Saved(t, kek) + rows)
  }

  /** The same, with the messages as before. */
  ghost predicate RatchetsSaved(t: Tables, t': Tables, kek: Term, rows: Rows) {
    t'.messages == t.messages && t'.messageKeys == t.messageKeys && RowsSaved(t, t', kek, rows)
  }

  /** What one save must leave. */
  ghost predicate RatchetSaved(t: Tables, t': Tables, kek: Term, user: string, d: DeviceId, s: State) {
    RatchetsSaved(t, t', kek, map[d := (user, Observe(s))])
  }

  lemma WrittenRowOpens(t: Tables, kek: Term, user: string, d: DeviceId, s: State)
    requires RowWritten(t, kek, user, d, s) && Fits(s)
    ensures d in Opened(t, kek) && Opened(t, kek)[d].0 == user
    ensures Complete(Opened(t, kek)[d].1) && Decode(Opened(t, kek)[d].1) == Observe(s)
  {
    hide Fits, Observe, Decode, Complete, Encode, IsOrder;
    var order, key, nonce, keyNonce :| RowWrittenWith(t, kek, user, d, s, order, key, nonce, keyNonce);
    OrderDomain(s, order);
    SealedRowsOpen(t, kek, user, d, Encode(s, order), key, nonce, keyNonce);
    ReadsBack(s, order);
  }

  /** Under any other key than the KEK a written row does not open. */
  lemma OtherKeyOpensNothing(t: Tables, kek: Term, user: string, d: DeviceId, s: State, other: Term)
    requires RowWritten(t, kek, user, d, s) && other != kek
    ensures d !in Opened(t, other)
  {
    hide Encode, IsOrder;
    var order, key, nonce, keyNonce :| RowWrittenWith(t, kek, user, d, s, order, key, nonce, keyNonce);
    OpenSeal(kek, keyNonce, Bytes(key, KEY_LENGTH), other, keyNonce);
  }

  lemma OrderDomain(s: State, order: seq<int>)
    requires IsOrder(order, s.skippedKeys)
    ensures forall k | k in order :: k in s.skippedKeys
  {
  }

  lemma SameRowOpens(t: Tables, t': Tables, kek: Term, d: DeviceId)
    requires SameRow(t, t', d)
    ensures d in Opened(t', kek) <==> d in Opened(t, kek)
    ensures d in Opened(t, kek) ==> Opened(t', kek)[d] == Opened(t, kek)[d]
  {
    assert d in t.ratchets ==> StoredBytes(t', kek, d) == StoredBytes(t, kek, d);
  }

  /** Whatever order, keys and nonces were drawn, written rows read back and all others stay. */
  lemma RowsReadBack(t: Tables, t': Tables, kek: Term, rows: Rows)
    requires RowsWritten(t, t', kek, rows) && Readable(t, kek)
    requires forall d | d in rows :: Fits(rows[d].1) && Observe(rows[d].1) == rows[d].1
    ensures RowsSaved(t, t', kek, rows)
  {
    hide Fits, Observe, Decode, Complete, Opened, RowWritten, SameRow;
    forall d
      ensures d in rows ==> d in Opened(t', kek) && Opened(t', kek)[d].0 == rows[d].0 && Complete(Opened(t', kek)[d].1)
      ensures d in rows ==> Decode(Opened(t', kek)[d].1) == rows[d].1
      ensures d !in rows ==> (d in Opened(t', kek) <==> d in Opened(t, kek))
      ensures d !in rows && d in Opened(t, kek) ==> Opened(t', kek)[d] == Opened(t, kek)[d]
    {
      if d in rows {
        WrittenRowOpens(t', kek, rows[d].0, d, rows[d].1);
      } else {
        SameRowOpens(t, t', kek, d);
      }
    }
    assert Readable(t', kek);
    assert Saved(t', kek) == Saved(t, kek) + rows;
  }

  /** REPLACE on both tables writes the row of what a reload observes. */
  lemma ReplacedRow(
      t: Tables, t': Tables, kek: Term, user: string, d: DeviceId, s: State, order: seq<int>, key: Term, nonce: Term,
      keyNonce: Term)
    requires IsOrder(order, s.skippedKeys)
    requires t' == t.(
      ratchets := t.ratchets[d := SealedRow(user, key, nonce, Encode(s, order))],
      ratchetKeys := t.ratchetKeys[d := SealedKeyRow(user, d, key, keyNonce, kek)])
    ensures RowsWritten(t, t', kek, map[d := (user, Observe(s))])
  {
    OrderDomain(s, order);
    EncodesObserved(s, order);
    assert RowWrittenWith(t', kek, user, d, Observe(s), order, key, nonce, keyNonce);
  }

  lemma WrittenRowReadsBack(t: Tables, t': Tables, kek: Term, user: string, d: DeviceId, s: State)
    requires Fits(s) && RowsWritten(t, t', kek, map[d := (user, Observe(s))])
    requires t'.messages == t.messages && t'.messageKeys == t.messageKeys
    ensures RatchetSaved(t, t', kek, user, d, s)
  {
    hide RowsWritten, Readable, Saved;
    if Readable(t, kek) {
      ObserveTwice(s);
      RowsReadBack(t, t', kek, map[d := (user, Observe(s))]);
    }
  }

  // ---- Accumulated saves ----

  lemma RowsAssociate(a: Rows, b: Rows, c: Rows)
    ensures a + b + c == a + (b + c)
  {
  }

  lemma NoRows(rows: Rows)
    ensures rows + map[] == rows
  {
  }

  lemma NothingSaved(t: Tables, kek: Term)
    ensures RatchetsSaved(t, t, kek, map[])
  {
    hide Readable, Saved;
    if Readable(t, kek) {
      NoRows(Saved(t, kek));
    }
  }

  lemma WritesCompose(t: Tables, t1: Tables, t2: Tables, kek: Term, rows: Rows, more: Rows)
    requires RowsWritten(t, t1, kek, rows) && RowsWritten(t1, t2, kek, more)
    ensures RowsWritten(t, t2, kek, rows + more)
  {
    hide RowWrittenWith;
    forall d | d in rows && d !in more ensures RowWritten(t2, kek, rows[d].0, d, rows[d].1) {
      RowStays(t1, t2, kek, rows[d].0, d, rows[d].1);
    }
  }

  lemma RowStays(t: Tables, t': Tables, kek: Term, user: string, d: DeviceId, s: State)
    requires RowWritten(t, kek, user, d, s) && SameRow(t, t', d)
    ensures RowWritten(t', kek, user, d, s)
  {
    var order, key, nonce, keyNonce :| RowWrittenWith(t, kek, user, d, s, order, key, nonce, keyNonce);
    assert RowWrittenWith(t', kek, user, d, s, order, key, nonce, keyNonce);
  }

  lemma RowsSavesCompose(t: Tables, t1: Tables, t2: Tables, kek: Term, rows: Rows, more: Rows)
    requires RowsSaved(t, t1, kek, rows) && RowsSaved(t1, t2, kek, more)
    ensures RowsSaved(t, t2, kek, rows + more)
  {
    hide Readable, Saved, RowsWritten;
    WritesCompose(t, t1, t2, kek, rows, more);
    if Readable(t, kek) {
      RowsAssociate(Saved(t, kek), rows, more);
    }
  }

  lemma SavesCompose(t: Tables, t1: Tables, t2: Tables, kek: Term, rows: Rows, more: Rows)
    requires RatchetsSaved(t, t1, kek, rows) && RatchetsSaved(t1, t2, kek, more)
    ensures RatchetsSaved(t, t2, kek, rows + more)
  {
    hide RowsSaved;
    RowsSavesCompose(t, t1, t2, kek, rows, more);
  }

  class Database {
    var ratchets: map<DeviceId, RatchetRow>
    var ratchetKeys: map<DeviceId, KeyRow>
    var messages: map<string, MessageRow>
    var messageKeys: map<string, KeyRow>

    ghost function View(): Tables
      reads this
    {
      Tables(ratchets, ratchetKeys, messages, messageKeys)
    }

    constructor ()
      ensures View() == Tables(map[], map[], map[], map[])
    {
      ratchets, ratchetKeys, messages, messageKeys := map[], map[], map[], map[];
    }

    method SaveRatchetAndKey(
        user: string, device: DeviceId, encryptedRatchet: Octets, nonce: Term, encryptedKey: Octets, keyNonce: Term)
      modifies this`ratchets, this`ratchetKeys
      ensures ratchets == old(ratchets)[device := RatchetRow(user, nonce, encryptedRatchet)]
      ensures ratchetKeys == old(ratchetKeys)[device := KeyRow(user, device, keyNonce, encryptedKey)]
    {
      ratchets := ratchets[device := RatchetRow(user, nonce, encryptedRatchet)];
      ratchetKeys := ratchetKeys[device := KeyRow(user, device, keyNonce, encryptedKey)];
    }

    method SaveMessageAndKey(
        user: string, fromDevice: DeviceId, uuid: string, encrypted: Octets, nonce: Term, encryptedKey: Octets,
        keyNonce: Term, isSender: bool)
      modifies this`messages, this`messageKeys
      ensures messages == old(messages)[uuid := MessageRow(user, fromDevice, nonce, encrypted, isSender)]
      ensures messageKeys == old(messageKeys)[uuid := KeyRow(user, fromDevice, keyNonce, encryptedKey)]
    {
      messages := messages[uuid := MessageRow(user, fromDevice, nonce, encrypted, isSender)];
      messageKeys := messageKeys[uuid := KeyRow(user, fromDevice, keyNonce, encryptedKey)];
    }

    /** The rows that decrypt, in whatever order the table is scanned. */
    method GetAllDecryptedRatchets(kek: Term)
        returns (rows: seq<(string, DeviceId, Octets)>)
      ensures IsListing(rows, View(), kek)
    {
      rows := [];
      var remaining := ratchets.Keys;
      while remaining != {}
        invariant remaining <= ratchets.Keys
        invariant ListsDevices(rows, View(), kek, ratchets.Keys - remaining)
      {
        Sets.EmptyWithoutElements(remaining);
        var d :| d in remaining;
        var bytes := StoredBytes(Tables(ratchets, ratchetKeys, messages, messageKeys), kek, d);
        ghost var before := rows;
        if bytes.Some? {
          rows := rows + [(ratchets[d].username, d, bytes.value)];
          assert forall i | 0 <= i < |before| :: rows[i] == before[i];
          assert rows[|before|].1 == d;
        }
        remaining := remaining - {d};
      }
      assert ratchets.Keys - remaining == ratchets.Keys;
    }

    /** The files received from, or sent to, other users, in whatever order the table is scanned. */
    method GetAllFileUuids(current: string, sent: bool) returns (list: seq<(string, string)>)
      ensures IsFileListing(list, View(), current, sent, messages.Keys)
    {
      list := [];
      var remaining := messages.Keys;
      while remaining != {}
        invariant remaining <= messages.Keys
        invariant IsFileListing(list, View(), current, sent, messages.Keys - remaining)
      {
        Sets.EmptyWithoutElements(remaining);
        var uuid :| uuid in remaining;
        ListMore(list, View(), current, sent, messages.Keys - remaining, uuid);
        if messages[uuid].username != current && messages[uuid].isSender == sent {
          list := list + [(uuid, messages[uuid].username)];
        }
        remaining := remaining - {uuid};
        assert messages.Keys - remaining == messages.Keys - (remaining + {uuid}) + {uuid};
      }
      assert messages.Keys - remaining == messages.Keys;
    }

    method GetDecryptedMessage(uuid: string, kek: Term) returns (message: Option<Octets>)
      ensures message == StoredMessage(View(), kek, uuid)
    {
      if uuid !in messages || uuid !in messageKeys {
        return None;
      }
      var key := DecryptSymmetricKey(messageKeys[uuid].encryptedKey, messageKeys[uuid].nonce, kek);
      if key.None? {
        return None;
      }
      message := Crypto.Open(key.value, messages[uuid].nonce, messages[uuid].encrypted);
    }
  }

  ghost predicate ListsDevices(rows: seq<(string, DeviceId, Octets)>, t: Tables, kek: Term, scanned: set<DeviceId>) {
    && (forall i | 0 <= i < |rows| ::
          && rows[i].1 in scanned && rows[i].1 in t.ratchets
          && rows[i].0 == t.ratchets[rows[i].1].username && StoredBytes(t, kek, rows[i].1) == Some(rows[i].2))
    && (forall d | d in scanned && d in t.ratchets && StoredBytes(t, kek, d).Some? ::
          exists i | 0 <= i < |rows| :: rows[i].1 == d)
  }

  ghost predicate IsListing(rows: seq<(string, DeviceId, Octets)>, t: Tables, kek: Term) {
    ListsDevices(rows, t, kek, t.ratchets.Keys)
  }
}
