/** Files sent between any number of devices, over whole runs: who can open a file, and what they get. */
module Recovery {
  import opened Wrappers
  import opened Crypto
  import opened Ratchet
  import KeyBundle
  import opened Sessions
  import opened Session
  import opened World
  import B = Reboots
  import opened Envelope
  import opened Sharing
  import Database

  type Tables = Database.Tables

  /** Everything the devices and the server hold. `posted` runs beside the world's log of issued keys. */
  datatype Office = Office(
    world: World, tables: DeviceId -> Tables,
    posted: (DeviceId, DeviceId) -> seq<Message>, files: map<string, StoredFile>)

  datatype Deed =
    | Meets(device: DeviceId, user: string, offers: seq<Offer>, store: KeyBundle.KeyStore, post: bool)
    | SendsFile(from: DeviceId, user: string, uuid: string, file: Octets, metadata: Octets, fKek: Term)
    | Reads(to: DeviceId, peer: DeviceId, message: nat, drawn: nat)
    | Restarts(device: DeviceId)

  function TurnOf(a: Deed): B.Turn {
    match a
    case Meets(x, user, offers, store, post) => B.Performs(Meet(x, user, offers, store, post))
    case SendsFile(from, user, _, _, _, _) => B.Performs(Broadcast(from, user))
    case Reads(to, peer, k, drawn) => B.Performs(Arrive(to, peer, k, drawn))
    case Restarts(x) => B.Reboots(x)
  }

  function TurnsOf(deeds: seq<Deed>): seq<B.Turn> {
    seq(|deeds|, i requires 0 <= i < |deeds| => TurnOf(deeds[i]))
  }

  function MachinesOf(o: Office): B.Machines {
    B.Machines(o.world, o.tables)
  }

  /** send_file_to: an upload, one message to each known device of the user, and a copy for the sender. */
  ghost predicate SentFile(
      kek: DeviceId -> Term, o: Office, o': Office, from: DeviceId, user: string, uuid: string, file: Octets,
      metadata: Octets, fKek: Term)
  {
    var keys := SentKeys(o.world.sessions(from), user, from);
    && (exists stored :: IsUpload(stored, file, metadata, fKek) && o'.files == o.files[uuid := stored])
    && (forall x, y ::
          if x == from && y in keys then
            && |o'.posted(x, y)| == |o.posted(x, y)| + 1 && o.posted(x, y) <= o'.posted(x, y)
            && Carries(o'.posted(x, y)[|o.posted(x, y)|], keys[y], uuid, fKek)
          else o'.posted(x, y) == o.posted(x, y))
    && (forall d | d != from :: o'.tables(d) == o.tables(d))
    && (exists copy :: IsCopy(copy, keys, user, uuid, fKek) && Kept(o.tables(from), o'.tables(from), kek(from), copy))
  }

  /** update_messages on one of the messages posted for the device. */
  ghost predicate ReadFile(
      f: Fleet, kek: DeviceId -> Term, o: Office, o': Office, to: DeviceId, peer: DeviceId, k: nat, drawn: nat)
  {
    && o'.posted == o.posted && o'.files == o.files
    && if |o.posted(peer, to)| <= k then o'.tables == o.tables
       else
         var i := Incoming(f.owner(peer), o.posted(peer, to)[k], drawn);
         && (forall d | d != to :: o'.tables(d) == o.tables(d))
         && Kept(o.tables(to), o'.tables(to), kek(to), KeptOf(i, ReadOne(o.world.sessions(to), i).1))
  }

  ghost predicate Next(f: Fleet, kek: DeviceId -> Term, o: Office, a: Deed, o': Office) {
    && B.Next(f, kek, MachinesOf(o), TurnOf(a), MachinesOf(o'))
    && match a
       case Meets(_, _, _, _, _) =>
         && o'.posted == o.posted && o'.files == o.files
         && forall d :: o'.tables(d).messages == o.tables(d).messages
                     && o'.tables(d).messageKeys == o.tables(d).messageKeys
       case Restarts(_) => o'.posted == o.posted && o'.files == o.files
       case SendsFile(from, user, uuid, file, metadata, fKek) =>
         SentFile(kek, o, o', from, user, uuid, file, metadata, fKek)
       case Reads(to, peer, k, drawn) => ReadFile(f, kek, o, o', to, peer, k, drawn)
  }

  /** The identifier is one of an uploaded file, as a header shows it. */
  ghost predicate InFiles(files: map<string, StoredFile>, field: string) {
    exists v | v in files :: UuidField(v) == field
  }

  /** The server gives out bundles as the fleet says and new identifiers, and no device reads from itself. */
  ghost predicate Enabled(f: Fleet, o: Office, a: Deed) {
    && (TurnOf(a).Performs? ==> Genuine(f, o.world, TurnOf(a).act))
    && (a.SendsFile? ==> !InFiles(o.files, UuidField(a.uuid)))
    && (a.Reads? ==> a.to != a.peer)
  }

  ghost predicate Initially(o: Office) {
    && o.world == Start() && o.files == map[]
    && (forall x, y :: o.posted(x, y) == [])
    && (forall d :: o.tables(d) == Database.Tables(map[], map[], map[], map[]))
  }

  ghost predicate IsRun(f: Fleet, kek: DeviceId -> Term, states: seq<Office>, deeds: seq<Deed>) {
    && |states| == |deeds| + 1 && Initially(states[0])
    && forall i | 0 <= i < |deeds| ::
         Enabled(f, states[i], deeds[i]) && Next(f, kek, states[i], deeds[i], states[i + 1])
  }

  // ---- What holds in every state ----

  ghost predicate Orderly(kek: DeviceId -> Term, o: Office) {
    && (forall x, y :: |o.posted(x, y)| == |o.world.sent(x, y)|)
    && (forall x, y, i | 0 <= i < |o.posted(x, y)| :: InFiles(o.files, o.posted(x, y)[i].header.fileUuid))
    && (forall d, v | v in o.tables(d).messages :: InFiles(o.files, v))
    && (forall x, y, j | 0 <= j < |o.world.got(y, x)| :: o.world.got(y, x)[j].message < |o.world.sent(x, y)|)
  }

  /** Every act only adds to the logs, and what it adds. */
  lemma ActLogs(f: Fleet, w: World, e: Act, x: DeviceId, y: DeviceId)
    ensures var w' := Perform(f, w, e);
      && w'.sent(x, y) == w.sent(x, y) + (if e.Broadcast? && e.from == x then Issued(w, x, e.user, y) else [])
      && w'.got(y, x) == w.got(y, x)
           + (if e.Arrive? && e.to == y && e.peer == x then Arrived(f, w, y, x, e.message, e.drawn) else [])
  {
    hide ReceiveFrom;
  }

  function Arrived(f: Fleet, w: World, to: DeviceId, peer: DeviceId, k: nat, drawn: nat): (d: seq<Delivery>)
    ensures d != [] ==> k < |w.sent(peer, to)| && |d| == 1 && d[0].message == k
  {
    if |w.sent(peer, to)| <= k then []
    else
      var reply := ReceiveFrom(w.sessions(to), f.owner(peer), w.sent(peer, to)[k].header, drawn).1;
      if reply.Reply? then [Delivery(k, reply.outcome)] else []
  }

  // ---- Each deed keeps the state orderly ----

  lemma InFilesGrows(files: map<string, StoredFile>, uuid: string, stored: StoredFile, field: string)
    ensures InFiles(files[uuid := stored], field) <==> InFiles(files, field) || UuidField(uuid) == field
  {
    if InFiles(files, field) {
      var v :| v in files && UuidField(v) == field;
      assert v in files[uuid := stored];
    }
    assert uuid in files[uuid := stored];
  }

  lemma PostedWhat(f: Fleet, kek: DeviceId -> Term, o: Office, a: Deed, o': Office, x: DeviceId, y: DeviceId)
    requires Next(f, kek, o, a, o')
    ensures |o'.posted(x, y)| - |o.posted(x, y)| == |o'.world.sent(x, y)| - |o.world.sent(x, y)|
    ensures o.posted(x, y) <= o'.posted(x, y)
    ensures |o.posted(x, y)| < |o'.posted(x, y)| ==>
      && a.SendsFile? && x == a.from && y in SentKeys(o.world.sessions(x), a.user, x)
      && |o'.posted(x, y)| == |o.posted(x, y)| + 1
      && o'.posted(x, y)[|o.posted(x, y)|].header.fileUuid == UuidField(a.uuid)
  {
    hide SentKey, SentHeader, UuidField, Database.StoredMessage, ReadOne, Perform;
    if TurnOf(a).Performs? {
      ActLogs(f, o.world, TurnOf(a).act, x, y);
    }
  }

  /** The rows a deed makes a device keep. */
  lemma DeedKeeps(f: Fleet, kek: DeviceId -> Term, o: Office, a: Deed, o': Office, d: DeviceId)
      returns (kept: map<string, Database.Entry>)
    requires Next(f, kek, o, a, o')
    ensures Kept(o.tables(d), o'.tables(d), kek(d), kept)
    ensures
      if a.SendsFile? && d == a.from then
        IsCopy(kept, SentKeys(o.world.sessions(d), a.user, d), a.user, a.uuid, a.fKek)
      else if a.Reads? && d == a.to && a.message < |o.posted(a.peer, d)| then
        var i := Incoming(f.owner(a.peer), o.posted(a.peer, d)[a.message], a.drawn);
        kept == KeptOf(i, ReadOne(o.world.sessions(d), i).1)
      else kept == map[]
  {
    hide SentKeys, UuidField, ReadOne, Perform, Kept, IsCopy, B.Next;
    if a.SendsFile? && d == a.from {
      kept := SenderKeeps(kek, o, a, o');
    } else if a.Reads? && d == a.to && a.message < |o.posted(a.peer, d)| {
      var i := Incoming(f.owner(a.peer), o.posted(a.peer, d)[a.message], a.drawn);
      kept := KeptOf(i, ReadOne(o.world.sessions(d), i).1);
    } else {
      kept := map[];
      OthersUntouched(f, kek, o, a, o', d);
      KeptNothing(o.tables(d), o'.tables(d), kek(d));
    }
  }

  lemma SenderKeeps(kek: DeviceId -> Term, o: Office, a: Deed, o': Office) returns (kept: map<string, Database.Entry>)
    requires a.SendsFile? && SentFile(kek, o, o', a.from, a.user, a.uuid, a.file, a.metadata, a.fKek)
    ensures Kept(o.tables(a.from), o'.tables(a.from), kek(a.from), kept)
    ensures IsCopy(kept, SentKeys(o.world.sessions(a.from), a.user, a.from), a.user, a.uuid, a.fKek)
  {
    hide SentKeys, UuidField, Kept, IsCopy, Carries, IsUpload;
    var keys := SentKeys(o.world.sessions(a.from), a.user, a.from);
    kept :| IsCopy(kept, keys, a.user, a.uuid, a.fKek) && Kept(o.tables(a.from), o'.tables(a.from), kek(a.from), kept);
  }

  /** Which file a row that is kept is for. */
  lemma KeptIsFor(f: Fleet, kek: DeviceId -> Term, o: Office, a: Deed, o': Office, d: DeviceId, v: string)
    requires Next(f, kek, o, a, o') && v in o'.tables(d).messages && v !in o.tables(d).messages
    ensures (a.SendsFile? && d == a.from && v == UuidField(a.uuid))
      || (a.Reads? && d == a.to && a.message < |o.posted(a.peer, d)|
          && v == o.posted(a.peer, d)[a.message].header.fileUuid)
  {
    var kept := DeedKeeps(f, kek, o, a, o', d);
    hide Next, UuidField, ReadOne, SentKeys, Database.EntryWritten;
    assert v in kept;
  }

  lemma OthersUntouched(f: Fleet, kek: DeviceId -> Term, o: Office, a: Deed, o': Office, d: DeviceId)
    requires Next(f, kek, o, a, o')
    requires !(a.SendsFile? && d == a.from) && !(a.Reads? && d == a.to && a.message < |o.posted(a.peer, d)|)
    ensures o'.tables(d).messages == o.tables(d).messages && o'.tables(d).messageKeys == o.tables(d).messageKeys
  {
    hide SentKeys, UuidField, ReadOne, Perform, Kept, IsCopy, IsUpload, Carries, KeptOf;
  }

  lemma FilesWhat(f: Fleet, kek: DeviceId -> Term, o: Office, a: Deed, o': Office, field: string)
    requires Next(f, kek, o, a, o')
    ensures InFiles(o'.files, field) <==> InFiles(o.files, field) || (a.SendsFile? && UuidField(a.uuid) == field)
    ensures forall v | v in o.files && !(a.SendsFile? && v == a.uuid) :: v in o'.files && o'.files[v] == o.files[v]
  {
    hide SentKeys, UuidField, Kept, Perform, IsUpload;
    if a.SendsFile? {
      var stored :| IsUpload(stored, a.file, a.metadata, a.fKek) && o'.files == o.files[a.uuid := stored];
      InFilesGrows(o.files, a.uuid, stored, field);
    }
  }

  lemma NextKeepsOrderly(f: Fleet, kek: DeviceId -> Term, o: Office, a: Deed, o': Office)
    requires Orderly(kek, o) && Next(f, kek, o, a, o')
    ensures Orderly(kek, o')
  {
    hide Next, InFiles, UuidField, Database.StoredMessage, Perform, ReadOne;
    forall x, y ensures |o'.posted(x, y)| == |o'.world.sent(x, y)| {
      PostedWhat(f, kek, o, a, o', x, y);
    }
    forall x, y, i | 0 <= i < |o'.posted(x, y)| ensures InFiles(o'.files, o'.posted(x, y)[i].header.fileUuid) {
      PostedWhat(f, kek, o, a, o', x, y);
      FilesWhat(f, kek, o, a, o', o'.posted(x, y)[i].header.fileUuid);
    }
    forall d, v | v in o'.tables(d).messages ensures InFiles(o'.files, v) {
      if v !in o.tables(d).messages {
        KeptIsFor(f, kek, o, a, o', d, v);
      }
      FilesWhat(f, kek, o, a, o', v);
    }
    forall x, y, j | 0 <= j < |o'.world.got(y, x)| ensures o'.world.got(y, x)[j].message < |o'.world.sent(x, y)| {
      NextLogs(f, kek, o, a, o', x, y);
    }
  }

  lemma NextLogs(f: Fleet, kek: DeviceId -> Term, o: Office, a: Deed, o': Office, x: DeviceId, y: DeviceId)
    requires Next(f, kek, o, a, o')
    ensures o.world.sent(x, y) <= o'.world.sent(x, y)
    ensures o'.world.got(y, x) == o.world.got(y, x)
      + (if a.Reads? && a.to == y && a.peer == x then Arrived(f, o.world, y, x, a.message, a.drawn) else [])
  {
    hide Perform, SentFile, ReadFile;
    if TurnOf(a).Performs? {
      ActLogs(f, o.world, TurnOf(a).act, x, y);
    }
  }

  // ---- One file, from the moment it is sent ----

  /** A file that x sends to a user, with the world as it is just before. */
  datatype Transfer = Transfer(
    before: World, x: DeviceId, user: string, uuid: string, file: Octets, metadata: Octets, fKek: Term)
  {
    predicate Known(d: DeviceId) {
      Has(before.sessions(x), user, d)
    }

    function Index(d: DeviceId): nat {
      |before.sent(x, d)|
    }

    function Field(): string {
      UuidField(uuid)
    }

    /** The devices that may open the file: the sender, if anything was posted, and every device the file was posted to
        that has processed its message. */
    predicate Opens(o: Office, d: DeviceId) {
      if d == x then SentKeys(before.sessions(x), user, x) != map[]
      else Known(d) && Delivered(o.world.got(d, x), Index(d))
    }

    ghost predicate Stored(o: Office) {
      uuid in o.files && IsUpload(o.files[uuid], file, metadata, fKek)
    }

    /** Each known device has its message, which carries the key-encryption key under the key issued with it. */
    ghost predicate Posted(o: Office, d: DeviceId) {
      Known(d) ==>
        && Index(d) < |o.posted(x, d)| && Index(d) < |o.world.sent(x, d)|
        && var issue := o.world.sent(x, d)[Index(d)];
           Carries(o.posted(x, d)[Index(d)], (issue.key, issue.header), uuid, fKek)
    }

    /** No other message has the identifier. */
    ghost predicate Alone(o: Office, a: DeviceId, b: DeviceId) {
      forall i | 0 <= i < |o.posted(a, b)| && o.posted(a, b)[i].header.fileUuid == Field() ::
        a == x && Known(b) && i == Index(b)
    }

    /** The key-encryption key as the sender keeps it, or as a recipient does. */
    predicate RightEntry(f: Fleet, d: DeviceId, e: Database.Entry) {
      && e.plain == Bytes(fKek, KEY_LENGTH)
      && if d == x then e.isSender && e.user == user && Known(e.device)
         else !e.isSender && e.user == f.owner(x) && e.device == x
    }

    ghost predicate HeldExactly(f: Fleet, kek: DeviceId -> Term, o: Office, d: DeviceId) {
      && (Field() in o.tables(d).messages <==> Opens(o, d))
      && (Opens(o, d) ==> exists e :: RightEntry(f, d, e) && Database.EntryWritten(o.tables(d), kek(d), Field(), e))
    }

    ghost predicate Holds(f: Fleet, kek: DeviceId -> Term, o: Office) {
      && Stored(o)
      && (forall d :: Posted(o, d)) && (forall a, b :: Alone(o, a, b)) && (forall d :: HeldExactly(f, kek, o, d))
    }
  }

  lemma SendingHolds(f: Fleet, kek: DeviceId -> Term, o: Office, a: Deed, o': Office, t: Transfer)
    requires Orderly(kek, o) && Enabled(f, o, a) && Next(f, kek, o, a, o')
    requires a == SendsFile(t.x, t.user, t.uuid, t.file, t.metadata, t.fKek) && t.before == o.world
    requires !t.Known(t.x)
    ensures t.Holds(f, kek, o')
  {
    hide Orderly, Enabled, Next, UuidField, IsUpload, Database.StoredMessage, InFiles;
    forall d ensures t.Posted(o', d) && t.HeldExactly(f, kek, o', d) {
      SendingPosts(f, kek, o, a, o', t, d);
      SendingHeld(f, kek, o, a, o', t, d);
    }
    forall b, c ensures t.Alone(o', b, c) {
      SendingAlone(f, kek, o, a, o', t, b, c);
    }
    assert t.Stored(o') by {
      SendingStored(f, kek, o, a, o', t);
    }
  }

  lemma SendingStored(f: Fleet, kek: DeviceId -> Term, o: Office, a: Deed, o': Office, t: Transfer)
    requires Next(f, kek, o, a, o')
    requires a == SendsFile(t.x, t.user, t.uuid, t.file, t.metadata, t.fKek) && t.before == o.world
    ensures t.Stored(o')
  {
    hide B.Next, UuidField, IsUpload, SentKey, SentHeader;
  }

  lemma SendingPosts(
      f: Fleet, kek: DeviceId -> Term, o: Office, a: Deed, o': Office, t: Transfer, d: DeviceId)
    requires Orderly(kek, o) && Next(f, kek, o, a, o')
    requires a == SendsFile(t.x, t.user, t.uuid, t.file, t.metadata, t.fKek) && t.before == o.world
    ensures t.Posted(o', d)
  {
    hide Perform, UuidField, IsUpload, Database.StoredMessage, InFiles, AfterSend, SentKey, SentHeader;
    ActLogs(f, o.world, TurnOf(a).act, t.x, d);
    IssuedAt(o.world, t.x, t.user, d);
  }

  lemma SendingAlone(
      f: Fleet, kek: DeviceId -> Term, o: Office, a: Deed, o': Office, t: Transfer, b: DeviceId, c: DeviceId)
    requires Orderly(kek, o) && Enabled(f, o, a) && Next(f, kek, o, a, o')
    requires a == SendsFile(t.x, t.user, t.uuid, t.file, t.metadata, t.fKek) && t.before == o.world
    ensures t.Alone(o', b, c)
  {
    hide Next, UuidField, InFiles, SentKey, SentHeader;
    PostedWhat(f, kek, o, a, o', b, c);
    SentKnown(o.world.sessions(b), t.user, b, c);
  }

  lemma SentKnown(m: Sessions, user: string, me: DeviceId, d: DeviceId)
    ensures d in SentKeys(m, user, me) <==> Has(m, user, d)
  {
  }

  lemma SendingHeld(
      f: Fleet, kek: DeviceId -> Term, o: Office, a: Deed, o': Office, t: Transfer, d: DeviceId)
    requires Orderly(kek, o) && Enabled(f, o, a) && Next(f, kek, o, a, o')
    requires a == SendsFile(t.x, t.user, t.uuid, t.file, t.metadata, t.fKek) && t.before == o.world
    requires !t.Known(t.x)
    ensures t.HeldExactly(f, kek, o', d)
  {
    hide Next, UuidField, InFiles, SentKeys, ReadOne, IsCopy, Kept;
    var kept := DeedKeeps(f, kek, o, a, o', d);
    if d == t.x {
      SenderOpens(f, o, o', t, kept);
    } else {
      NextLogs(f, kek, o, a, o', t.x, d);
      assert o'.world.got(d, t.x) == o.world.got(d, t.x);
    }
    NewlyHeld(f, kek, o, o', t, d, kept);
  }

  /** The sender can open the file if it keeps a copy, and that is the right one. */
  lemma SenderOpens(f: Fleet, o: Office, o': Office, t: Transfer, kept: map<string, Database.Entry>)
    requires t.before == o.world
    requires IsCopy(kept, SentKeys(o.world.sessions(t.x), t.user, t.x), t.user, t.uuid, t.fKek)
    ensures t.Opens(o', t.x) <==> t.Field() in kept
    ensures t.Field() in kept ==> t.RightEntry(f, t.x, kept[t.Field()])
  {
    hide UuidField, SentKeys;
    forall e ensures e in SentKeys(o.world.sessions(t.x), t.user, t.x) <==> t.Known(e) {
      SentKnown(o.world.sessions(t.x), t.user, t.x, e);
    }
  }

  lemma NewlyHeld(
      f: Fleet, kek: DeviceId -> Term, o: Office, o': Office, t: Transfer, d: DeviceId,
      kept: map<string, Database.Entry>)
    requires Kept(o.tables(d), o'.tables(d), kek(d), kept) && t.Field() !in o.tables(d).messages
    requires t.Opens(o', d) <==> t.Field() in kept
    requires t.Field() in kept ==> t.RightEntry(f, d, kept[t.Field()])
    ensures t.HeldExactly(f, kek, o', d)
  {
    hide UuidField, Database.StoredMessage;
    if t.Field() in kept {
      assert Database.EntryWritten(o'.tables(d), kek(d), t.Field(), kept[t.Field()]);
    }
  }

  /** A new upload is under another identifier. */
  lemma OtherField(f: Fleet, o: Office, a: Deed, t: Transfer)
    requires t.Stored(o) && Enabled(f, o, a) && a.SendsFile?
    ensures UuidField(a.uuid) != t.Field() && a.uuid != t.uuid
  {
  }

  lemma NextKeepsPosts(f: Fleet, kek: DeviceId -> Term, o: Office, a: Deed, o': Office, t: Transfer)
    requires t.Holds(f, kek, o) && Enabled(f, o, a) && Next(f, kek, o, a, o')
    ensures t.Stored(o') && (forall d :: t.Posted(o', d)) && forall b, c :: t.Alone(o', b, c)
  {
    hide Next, UuidField, IsUpload, Database.StoredMessage, Carries, InFiles, Enabled;
    if a.SendsFile? {
      OtherField(f, o, a, t);
    }
    FilesWhat(f, kek, o, a, o', t.Field());
    forall d ensures t.Posted(o', d) {
      assert t.Posted(o, d);
      PostedWhat(f, kek, o, a, o', t.x, d);
      NextLogs(f, kek, o, a, o', t.x, d);
    }
    forall b, c ensures t.Alone(o', b, c) {
      assert t.Alone(o, b, c);
      PostedWhat(f, kek, o, a, o', b, c);
    }
  }

  /** The header's identifier plays no part in receiving. */
  lemma ReceiveIgnoresUuid(m: Sessions, user: string, h: Header, uuid: string, drawn: nat)
    ensures ReceiveFrom(m, user, h.(fileUuid := uuid), drawn) == ReceiveFrom(m, user, h, drawn)
  {
  }

  lemma IssuedBy(f: Fleet, w: World, acts: seq<Act>, x: DeviceId, y: DeviceId, k: nat)
    requires B.Like(w, Acts(f, Start(), acts)) && AllGenuine(f, acts) && k < |w.sent(x, y)|
    ensures w.sent(x, y)[k].header.deviceId == x
  {
    hide AllGenuine, Acts;
    WorldConsistent(f, acts);
    B.ConsistentAlike(f, w, Acts(f, Start(), acts));
  }

  /** Reading the message of the transfer: the key-encryption key, the first time, and nothing after that. */
  lemma ReadTransfer(
      f: Fleet, kek: DeviceId -> Term, o: Office, acts: seq<Act>, t: Transfer, d: DeviceId, drawn: nat)
    requires t.Posted(o, d) && t.Known(d) && B.Like(o.world, Acts(f, Start(), acts))
    requires t.x != d && AllGenuine(f, acts) && Shaken(f, t.x, d)
    ensures var i := Incoming(f.owner(t.x), o.posted(t.x, d)[t.Index(d)], drawn);
      var got := Arrived(f, o.world, d, t.x, t.Index(d), drawn);
      KeptOf(i, ReadOne(o.world.sessions(d), i).1)
      == if got == [] || Delivered(o.world.got(d, t.x), t.Index(d)) then map[]
         else map[t.Field() := Database.Entry(f.owner(t.x), t.x, Bytes(t.fKek, KEY_LENGTH), false)]
  {
    hide Acts, ReceiveFrom, Shaken, AllGenuine, UuidField, B.Like;
    var k := t.Index(d);
    var issue, message := o.world.sent(t.x, d)[k], o.posted(t.x, d)[k];
    B.ArrivalAlike(f, o.world, acts, t.x, d, k, drawn);
    IssuedBy(f, o.world, acts, t.x, d, k);
    ReceiveIgnoresUuid(o.world.sessions(d), f.owner(t.x), issue.header, t.Field(), drawn);
    SealedOpens(message.ciphertext, Bytes(t.fKek, KEY_LENGTH), issue.key, issue.key);
    assert message.header == issue.header.(fileUuid := t.Field());
  }

  lemma DeliveredMore(ds: seq<Delivery>, more: seq<Delivery>, k: nat)
    requires |more| <= 1
    ensures Delivered(ds + more, k) <==> Delivered(ds, k) || (more != [] && more[0].message == k)
  {
    if Delivered(ds, k) {
      var j :| 0 <= j < |ds| && ds[j].message == k;
      assert (ds + more)[j].message == k;
    }
    if more != [] && more[0].message == k {
      assert (ds + more)[|ds|].message == k;
    }
  }

  lemma NextKeepsHeld(
      f: Fleet, kek: DeviceId -> Term, o: Office, acts: seq<Act>, a: Deed, o': Office, t: Transfer, d: DeviceId)
    requires t.Holds(f, kek, o) && Orderly(kek, o) && Enabled(f, o, a) && Next(f, kek, o, a, o')
    requires B.Like(o.world, Acts(f, Start(), acts))
    requires AllGenuine(f, acts) && (t.x != d && t.Known(d) ==> Shaken(f, t.x, d))
    ensures t.HeldExactly(f, kek, o', d)
  {
    hide Next, Acts, UuidField, IsUpload, Database.EntryWritten, ReadOne, Shaken, AllGenuine, Delivered, IsSealed,
      B.Like, Carries, IsCopy, InFiles;
    assert t.HeldExactly(f, kek, o, d);
    var kept := DeedKeeps(f, kek, o, a, o', d);
    NextLogs(f, kek, o, a, o', t.x, d);
    assert o.world.got(d, t.x) + [] == o.world.got(d, t.x);
    if a.SendsFile? {
      OtherField(f, o, a, t);
      OtherCopy(kept, o, a, t, d);
    } else if a.Reads? && a.to == d && a.message < |o.posted(a.peer, d)| {
      ReadingKeepsEntry(f, kek, o, acts, a, o', t, d);
    }
    EntryKept(f, kek, o, o', t, d, kept);
  }

  lemma ReadingKeepsEntry(
      f: Fleet, kek: DeviceId -> Term, o: Office, acts: seq<Act>, a: Deed, o': Office, t: Transfer, d: DeviceId)
    requires t.Holds(f, kek, o) && a.Reads? && a.to == d != a.peer && a.message < |o.posted(a.peer, d)|
    requires B.Like(o.world, Acts(f, Start(), acts))
    requires AllGenuine(f, acts) && (t.x != d && t.Known(d) ==> Shaken(f, t.x, d))
    requires o'.world.got(d, t.x) == o.world.got(d, t.x)
      + (if a.peer == t.x then Arrived(f, o.world, d, t.x, a.message, a.drawn) else [])
    ensures var i := Incoming(f.owner(a.peer), o.posted(a.peer, d)[a.message], a.drawn);
      var kept := KeptOf(i, ReadOne(o.world.sessions(d), i).1);
      && (t.Opens(o', d) <==> t.Opens(o, d) || t.Field() in kept)
      && (t.Field() in kept ==> t.RightEntry(f, d, kept[t.Field()]))
  {
    hide Acts, UuidField, IsUpload, ReadOne, Shaken, AllGenuine, Delivered, IsSealed, B.Like, Carries, InFiles, Arrived;
    var more := Arrived(f, o.world, d, a.peer, a.message, a.drawn);
    assert t.Alone(o, a.peer, d) && t.Posted(o, d);
    if a.peer == t.x {
      DeliveredMore(o.world.got(d, t.x), more, t.Index(d));
    } else {
      assert o.world.got(d, t.x) + [] == o.world.got(d, t.x);
    }
    if o.posted(a.peer, d)[a.message].header.fileUuid == t.Field() {
      ReadTransfer(f, kek, o, acts, t, d, a.drawn);
    } else if t.Known(d) && a.peer == t.x {
      CarriesField(o.posted(t.x, d)[t.Index(d)], o, t, d);
    }
  }

  lemma CarriesField(m: Message, o: Office, t: Transfer, d: DeviceId)
    requires t.Known(d) && t.Posted(o, d) && m == o.posted(t.x, d)[t.Index(d)]
    ensures m.header.fileUuid == t.Field()
  {
  }

  lemma OtherCopy(kept: map<string, Database.Entry>, o: Office, a: Deed, t: Transfer, d: DeviceId)
    requires a.SendsFile? && UuidField(a.uuid) != t.Field()
    requires kept == map[]
      || (d == a.from && IsCopy(kept, SentKeys(o.world.sessions(d), a.user, d), a.user, a.uuid, a.fKek))
    ensures t.Field() !in kept
  {
    hide UuidField, SentKeys;
  }

  /** A device holds the file afterwards if it did before or its deed kept it. */
  lemma EntryKept(
      f: Fleet, kek: DeviceId -> Term, o: Office, o': Office, t: Transfer, d: DeviceId,
      kept: map<string, Database.Entry>)
    requires t.HeldExactly(f, kek, o, d) && Kept(o.tables(d), o'.tables(d), kek(d), kept)
    requires t.Opens(o', d) <==> t.Opens(o, d) || t.Field() in kept
    requires t.Field() in kept ==> t.RightEntry(f, d, kept[t.Field()])
    ensures t.HeldExactly(f, kek, o', d)
  {
    hide UuidField, Database.StoredMessage;
    if t.Field() in kept {
      assert Database.EntryWritten(o'.tables(d), kek(d), t.Field(), kept[t.Field()]);
    } else if t.Opens(o, d) {
      var e :| t.RightEntry(f, d, e) && Database.EntryWritten(o.tables(d), kek(d), t.Field(), e);
      EntryStays(o.tables(d), o'.tables(d), kek(d), t.Field(), e);
    }
  }

  // ---- Whole runs ----

  lemma {:induction false} RunIsOrderly(f: Fleet, kek: DeviceId -> Term, states: seq<Office>, deeds: seq<Deed>, n: nat)
    requires IsRun(f, kek, states, deeds) && n <= |deeds|
    ensures Orderly(kek, states[n])
  {
    hide Orderly, Next, Enabled;
    if n == 0 {
      InitiallyOrderly(kek, states[0]);
    } else {
      RunIsOrderly(f, kek, states, deeds, n - 1);
      assert Enabled(f, states[n - 1], deeds[n - 1]);
      NextKeepsOrderly(f, kek, states[n - 1], deeds[n - 1], states[n]);
    }
  }

  /** The devices of a run, with its restarts dropped. */
  lemma RunIsLike(f: Fleet, kek: DeviceId -> Term, states: seq<Office>, deeds: seq<Deed>, n: nat)
      returns (acts: seq<Act>)
    requires IsRun(f, kek, states, deeds) && B.Sound(TurnsOf(deeds)) && n <= |deeds|
    ensures AllGenuine(f, acts) && B.Like(states[n].world, Acts(f, Start(), acts))
  {
    hide B.Like, B.Sound, AllGenuine, Acts, SentFile, ReadFile, B.Next, Genuine;
    var machines := seq(|states|, i requires 0 <= i < |states| => MachinesOf(states[i]));
    var turns := TurnsOf(deeds);
    assert B.IsRun(f, kek, machines, turns) by {
      forall i | 0 <= i < |turns|
        ensures turns[i].Performs? ==> Genuine(f, machines[i].world, turns[i].act)
        ensures B.Next(f, kek, machines[i], turns[i], machines[i + 1])
      {
        assert Enabled(f, states[i], deeds[i]) && Next(f, kek, states[i], deeds[i], states[i + 1]);
      }
    }
    B.RebootsAreInvisible(f, kek, machines, turns, n);
    acts := B.ActsOf(turns[..n]);
  }

  lemma InitiallyOrderly(kek: DeviceId -> Term, o: Office)
    requires Initially(o)
    ensures Orderly(kek, o)
  {
  }

  /** The i-th deed of a run starts the transfer, to devices that each share a handshake with the sender. */
  ghost predicate Starts(f: Fleet, states: seq<Office>, deeds: seq<Deed>, i: nat, t: Transfer) {
    && i < |deeds| <= |states|
    && deeds[i] == SendsFile(t.x, t.user, t.uuid, t.file, t.metadata, t.fKek) && t.before == states[i].world
    && forall d | t.Known(d) :: d != t.x && Shaken(f, t.x, d)
  }

  lemma {:induction false} TransferHolds(
      f: Fleet, kek: DeviceId -> Term, states: seq<Office>, deeds: seq<Deed>, i: nat, t: Transfer, n: nat)
    requires IsRun(f, kek, states, deeds) && B.Sound(TurnsOf(deeds))
    requires Starts(f, states, deeds, i, t) && i < n <= |deeds|
    ensures t.Holds(f, kek, states[n])
  {
    hide Orderly, Next, Enabled, Shaken, AllGenuine, Acts, TurnsOf, B.Like, B.Sound;
    var o, a := states[n - 1], deeds[n - 1];
    RunIsOrderly(f, kek, states, deeds, n - 1);
    if n == i + 1 {
      SendingHolds(f, kek, o, a, states[n], t);
    } else {
      TransferHolds(f, kek, states, deeds, i, t, n - 1);
      NextKeepsPosts(f, kek, o, a, states[n], t);
      var acts := RunIsLike(f, kek, states, deeds, n - 1);
      forall d ensures t.HeldExactly(f, kek, states[n], d) {
        NextKeepsHeld(f, kek, o, acts, a, states[n], t, d);
      }
    }
  }

  lemma FieldsFit(v: string)
    ensures |UuidField(v)| < UUID_FIELD && '\0' !in UuidField(v)
  {
  }

  /** In every run, at every moment after a file was sent, each device that downloads it gets the original bytes exactly
      when it may open it, the file is not empty and its identifier fits a header; otherwise it is refused. It is shown
      the original metadata under the same conditions. */
  lemma FileRecovered(
      f: Fleet, kek: DeviceId -> Term, states: seq<Office>, deeds: seq<Deed>, i: nat, t: Transfer, n: nat, d: DeviceId)
    requires IsRun(f, kek, states, deeds) && B.Sound(TurnsOf(deeds))
    requires Starts(f, states, deeds, i, t) && i < n <= |deeds|
    ensures var o := states[n];
      && t.uuid in o.files
      && Downloaded(Database.StoredMessage(o.tables(d), kek(d), t.uuid), Some(o.files[t.uuid]))
         == if t.Opens(o, d) && t.file != [] && |t.uuid| < UUID_FIELD && '\0' !in t.uuid
            then Success(t.file) else Failure(NoAccess)
    ensures var o := states[n];
      t.uuid in o.files
      && ShownMetadata(Database.StoredMessage(o.tables(d), kek(d), t.uuid), o.files[t.uuid])
         == if t.Opens(o, d) && t.metadata != [] && |t.uuid| < UUID_FIELD && '\0' !in t.uuid
            then Some(t.metadata) else None
  {
    hide Next, Starts, Downloaded, ShownMetadata, UuidField, IsUpload, Database.StoredMessage, B.Sound;
    TransferHolds(f, kek, states, deeds, i, t, n);
    var o := states[n];
    assert t.Stored(o) && t.HeldExactly(f, kek, o, d);
    var kept := Database.StoredMessage(o.tables(d), kek(d), t.uuid);
    HeldReads(f, kek, o, t, d);
    UuidSurvives(t.uuid);
    if t.Field() == t.uuid {
      UploadDownloads(o.files[t.uuid], t.file, t.metadata, t.fKek, t.fKek);
      UploadShowsMetadata(o.files[t.uuid], t.file, t.metadata, t.fKek, t.fKek);
    } else {
      RunIsOrderly(f, kek, states, deeds, n);
      if kept.Some? {
        StoredIsThere(o.tables(d), kek(d), t.uuid);
        assert InFiles(o.files, t.uuid);
        var v :| v in o.files && UuidField(v) == t.uuid;
        FieldsFit(v);
      }
    }
    NothingKept(o.files[t.uuid]);
  }

  /** At every such moment the file is listed as sent to the user at the sender, and as received from the sender's user
      at each recipient that has processed its message, to whoever else is logged in there; and at no other device. */
  lemma FileListed(
      f: Fleet, kek: DeviceId -> Term, states: seq<Office>, deeds: seq<Deed>, i: nat, t: Transfer, n: nat, d: DeviceId,
      current: string, sent: bool, user: string)
    requires IsRun(f, kek, states, deeds) && B.Sound(TurnsOf(deeds))
    requires Starts(f, states, deeds, i, t) && i < n <= |deeds|
    ensures Database.Lists(states[n].tables(d), current, sent, t.Field(), user) <==>
      && t.Opens(states[n], d) && user != current
      && if d == t.x then sent && user == t.user else !sent && user == f.owner(t.x)
  {
    hide Next, Starts, B.Sound, TurnsOf, UuidField, IsUpload, Database.StoredMessage;
    TransferHolds(f, kek, states, deeds, i, t, n);
    var o := states[n];
    assert t.HeldExactly(f, kek, o, d);
    if t.Opens(o, d) {
      var e :| t.RightEntry(f, d, e) && Database.EntryWritten(o.tables(d), kek(d), t.Field(), e);
    }
  }

  lemma StoredIsThere(t: Tables, kek: Term, uuid: string)
    requires Database.StoredMessage(t, kek, uuid).Some?
    ensures uuid in t.messages
  {
  }

  lemma HeldReads(f: Fleet, kek: DeviceId -> Term, o: Office, t: Transfer, d: DeviceId)
    requires t.HeldExactly(f, kek, o, d)
    ensures Database.StoredMessage(o.tables(d), kek(d), t.Field())
         == if t.Opens(o, d) then Some(Bytes(t.fKek, KEY_LENGTH)) else None
  {
    hide UuidField;
    if t.Opens(o, d) {
      hide Database.StoredMessage;
      var e :| t.RightEntry(f, d, e) && Database.EntryWritten(o.tables(d), kek(d), t.Field(), e);
    }
  }

  lemma NothingKept(stored: StoredFile)
    ensures Downloaded(None, Some(stored)) == Failure(NoAccess) && ShownMetadata(None, stored) == None
  {
  }
}
