/** The byte format of a saved ratchet: 210 bytes and 36 for each backlog entry, little-endian. */
module Codec {
  import opened Integers
  import opened Crypto
  import opened Ratchet

  // ---- Integers ----

  predicate IsInt32(v: int) {
    -TWO_31 <= v < TWO_31
  }

  /** The four bytes of a 32-bit integer, signed or unsigned. */
  function IntOctets(v: int): (o: Octets)
    ensures |o| == 4
  {
    var u0 := v % TWO_32;
    var u1 := u0 / 0x100;
    var u2 := u1 / 0x100;
    [Lit(u0 % 0x100), Lit(u1 % 0x100), Lit(u2 % 0x100), Lit(u2 / 0x100)]
  }

  /** The number in a byte; no integer of the format is ever read from part of a key. */
  function ByteValue(o: Octet): int {
    if o.Lit? then o.value % 0x100 else 0
  }

  function ReadUnsigned(o: Octets): (u: int)
    requires |o| >= 4
    ensures 0 <= u < TWO_32
  {
    ByteValue(o[0]) + 0x100 * ByteValue(o[1]) + 0x1_0000 * ByteValue(o[2]) + 0x100_0000 * ByteValue(o[3])
  }

  function ReadSigned(o: Octets): int
    requires |o| >= 4
  {
    var u := ReadUnsigned(o);
    if u < TWO_31 then u else u - TWO_32
  }

  lemma ReadUnsignedOctets(v: int, rest: Octets)
    ensures ReadUnsigned(IntOctets(v) + rest) == v % TWO_32
  {
    var u0 := v % TWO_32;
    var u1 := u0 / 0x100;
    var u2 := u1 / 0x100;
    assert 0 <= u2 / 0x100 < 0x100;
    var o := IntOctets(v) + rest;
    assert ByteValue(o[0]) == u0 % 0x100 && ByteValue(o[1]) == u1 % 0x100;
    assert ByteValue(o[2]) == u2 % 0x100 && ByteValue(o[3]) == u2 / 0x100;
  }

  lemma ReadInt(v: int, rest: Octets)
    ensures 0 <= v < TWO_32 ==> ReadUnsigned(IntOctets(v) + rest) == v
    ensures IsInt32(v) ==> ReadSigned(IntOctets(v) + rest) == v
  {
    hide IntOctets, ReadUnsigned, ByteValue;
    ReadUnsignedOctets(v, rest);
  }

  // ---- Writing ----

  function BoolOctets(b: bool): (o: Octets)
    ensures |o| == 1
  {
    [Lit(if b then 1 else 0)]
  }

  function KeyOctets(t: Term): (o: Octets)
    ensures |o| == KEY_LENGTH
  {
    Bytes(t, KEY_LENGTH)
  }

  function ChainOctets(c: Chain): (o: Octets)
    ensures |o| == 36
  {
    KeyOctets(c.key) + IntOctets(c.index)
  }

  function EntryOctets(k: int, key: Term): (o: Octets)
    ensures |o| == 36
  {
    IntOctets(k) + KeyOctets(key)
  }

  /** A traversal of the backlog map, in whatever order the hash table gives. */
  ghost predicate IsOrder(order: seq<int>, m: map<int, Term>) {
    && |order| == |m|
    && (forall k | k in order :: k in m)
    && (forall k | k in m :: k in order)
  }

  function EntriesOctets(m: map<int, Term>, order: seq<int>): (o: Octets)
    requires forall k | k in order :: k in m
    ensures |o| == 36 * |order|
  {
    if order == [] then []
    else
      var last := |order| - 1;
      EntriesOctets(m, order[..last]) + EntryOctets(order[last], m[order[last]])
  }

  function KeysOctets(s: State): (o: Octets)
    ensures |o| == 128
  {
    KeyOctets(s.rootKey) + KeyOctets(s.localDhPublic) + s.localDhPriv[..KEY_LENGTH] + KeyOctets(s.remoteDhPublic)
  }

  function CountedChainsOctets(s: State): (o: Octets)
    ensures |o| == 76
  {
    ChainOctets(s.sendChain) + ChainOctets(s.receiveChain) + IntOctets(|s.skippedKeys|)
  }

  function FlagsOctets(s: State): (o: Octets)
    ensures |o| == 6
  {
    BoolOctets(s.dueToSendNewDh) + BoolOctets(s.reversed) + IntOctets(s.prevChainLength)
  }

  function Encode(s: State, order: seq<int>): (o: Octets)
    requires forall k | k in order :: k in s.skippedKeys
    ensures |o| == 210 + 36 * |order|
  {
    KeysOctets(s) + CountedChainsOctets(s) + EntriesOctets(s.skippedKeys, order) + FlagsOctets(s)
  }

  // ---- Reading ----

  function ReadKey(o: Octets): Term
    requires |o| >= KEY_LENGTH
  {
    Word(o[..KEY_LENGTH])
  }

  function ReadChain(o: Octets): Chain
    requires |o| >= 36
  {
    Chain(ReadSigned(o[KEY_LENGTH..]), ReadKey(o))
  }

  /** n entries read from the front of o; a later entry for an index replaces an earlier one. */
  function ReadEntries(o: Octets, n: nat): map<int, Term>
    requires |o| >= 36 * n
  {
    if n == 0 then map[]
    else
      var entry := o[36 * (n - 1)..];
      ReadEntries(o, n - 1)[ReadSigned(entry) := ReadKey(entry[4..])]
  }

  function Count(o: Octets): nat
    requires |o| >= 204
  {
    ReadUnsigned(o[200..])
  }

  /** The stream holds at least one whole ratchet. */
  predicate Complete(o: Octets) {
    |o| >= 204 && |o| >= Length(o)
  }

  function Length(o: Octets): nat
    requires |o| >= 204
  {
    210 + 36 * Count(o)
  }

  function Decode(o: Octets): State
    requires Complete(o)
  {
    var flags := o[204 + 36 * Count(o)..];
    State(
      ByteValue(flags[1]) != 0, ByteValue(flags[0]) != 0,
      ReadKey(o), ReadChain(o[128..]), ReadChain(o[164..]), ReadKey(o[32..]), o[64..96], ReadKey(o[96..]),
      ReadEntries(o[204..], Count(o)), ReadSigned(flags[2..]))
  }

  // ---- Round trip ----

  /** The part of a state its operations read: the first 32 bytes of the private buffer. */
  function Observe(s: State): State {
    s.(localDhPriv := s.localDhPriv[..KEY_LENGTH])
  }

  lemma ObserveTwice(s: State)
    ensures Observe(Observe(s)) == Observe(s)
  {
    assert s.localDhPriv[..KEY_LENGTH][..KEY_LENGTH] == s.localDhPriv[..KEY_LENGTH];
  }

  /** What a reload does not observe is not written. */
  lemma EncodesObserved(s: State, order: seq<int>)
    requires forall k | k in order :: k in s.skippedKeys
    ensures Encode(Observe(s), order) == Encode(s, order)
  {
    ObserveTwice(s);
  }

  ghost predicate Fits(s: State) {
    && IsInt32(s.sendChain.index) && IsInt32(s.receiveChain.index) && IsInt32(s.prevChainLength)
    && (forall k | k in s.skippedKeys :: IsInt32(k))
    && |s.skippedKeys| < TWO_32
  }

  lemma ReadKeyOctets(t: Term, rest: Octets)
    ensures ReadKey(KeyOctets(t) + rest) == t
  {
    WordOfBytes(t, KEY_LENGTH);
    assert (KeyOctets(t) + rest)[..KEY_LENGTH] == KeyOctets(t);
  }

  lemma ReadChainOctets(c: Chain, rest: Octets)
    requires IsInt32(c.index)
    ensures ReadChain(ChainOctets(c) + rest) == c
  {
    var o := ChainOctets(c) + rest;
    assert o == KeyOctets(c.key) + (IntOctets(c.index) + rest);
    assert o[KEY_LENGTH..] == IntOctets(c.index) + rest;
    ReadKeyOctets(c.key, IntOctets(c.index) + rest);
    ReadInt(c.index, rest);
  }

  lemma ReadEntryOctets(k: int, key: Term, rest: Octets)
    requires IsInt32(k)
    ensures var o := EntryOctets(k, key) + rest; ReadSigned(o) == k && ReadKey(o[4..]) == key
  {
    var o := EntryOctets(k, key) + rest;
    assert o == IntOctets(k) + (KeyOctets(key) + rest);
    ReadInt(k, KeyOctets(key) + rest);
    ReadKeyOctets(key, rest);
  }

  lemma Dropped(front: Octets, back: Octets, n: nat)
    requires n == |front|
    ensures (front + back)[n..] == back
  {
  }

  /** Entries read back from any traversal are the traversed part of the map. */
  lemma {:induction false} ReadEntriesOctets(m: map<int, Term>, order: seq<int>, rest: Octets)
    requires forall k | k in order :: k in m && IsInt32(k)
    ensures ReadEntries(EntriesOctets(m, order) + rest, |order|) == map k | k in order :: m[k]
  {
    hide EntryOctets, ReadSigned, ReadKey, IsInt32;
    if order != [] {
      var last := |order| - 1;
      var k, init := order[last], order[..last];
      var entry := EntryOctets(k, m[k]) + rest;
      LastEntry(m, order, rest);
      ReadEntryOctets(k, m[k], rest);
      ReadEntriesOctets(m, init, entry);
      MapOfExtended(m, init, k);
      assert order == init + [k];
    }
  }

  /** What follows the first entries is the last one. */
  lemma LastEntry(m: map<int, Term>, order: seq<int>, rest: Octets)
    requires order != [] && forall k | k in order :: k in m
    ensures var last := |order| - 1;
      var entry := EntryOctets(order[last], m[order[last]]) + rest;
      && EntriesOctets(m, order) + rest == EntriesOctets(m, order[..last]) + entry
      && (EntriesOctets(m, order) + rest)[36 * last..] == entry
  {
    hide EntryOctets;
    var last := |order| - 1;
    var entry := EntryOctets(order[last], m[order[last]]) + rest;
    assert EntriesOctets(m, order) + rest == EntriesOctets(m, order[..last]) + entry;
    Dropped(EntriesOctets(m, order[..last]), entry, 36 * last);
  }

  lemma MapOfExtended(m: map<int, Term>, init: seq<int>, k: int)
    requires k in m && forall i | i in init :: i in m
    ensures (map i | i in init :: m[i])[k := m[k]] == map i | i in init + [k] :: m[i]
  {
  }

  lemma DecodeKeys(s: State, rest: Octets)
    ensures var o := KeysOctets(s) + rest;
      && ReadKey(o) == s.rootKey && ReadKey(o[32..]) == s.localDhPublic
      && o[64..96] == s.localDhPriv[..KEY_LENGTH] && ReadKey(o[96..]) == s.remoteDhPublic
  {
    var o := KeysOctets(s) + rest;
    assert o[..32] == KeyOctets(s.rootKey) && o[32..][..32] == KeyOctets(s.localDhPublic);
    assert o[96..][..32] == KeyOctets(s.remoteDhPublic);
    WordOfBytes(s.rootKey, 32);
    WordOfBytes(s.localDhPublic, 32);
    WordOfBytes(s.remoteDhPublic, 32);
  }

  lemma DecodeCountedChains(s: State, rest: Octets)
    requires Fits(s)
    ensures var o := CountedChainsOctets(s) + rest;
      ReadChain(o) == s.sendChain && ReadChain(o[36..]) == s.receiveChain && ReadUnsigned(o[72..]) == |s.skippedKeys|
  {
    var o := CountedChainsOctets(s) + rest;
    var count := IntOctets(|s.skippedKeys|) + rest;
    assert o == ChainOctets(s.sendChain) + (ChainOctets(s.receiveChain) + count);
    assert o[36..] == ChainOctets(s.receiveChain) + count && o[72..] == count;
    ReadChainOctets(s.sendChain, ChainOctets(s.receiveChain) + count);
    ReadChainOctets(s.receiveChain, count);
    ReadInt(|s.skippedKeys|, rest);
  }

  lemma DecodeFlags(s: State, rest: Octets)
    requires Fits(s)
    ensures var o := FlagsOctets(s) + rest;
      (ByteValue(o[0]) != 0 <==> s.dueToSendNewDh) && (ByteValue(o[1]) != 0 <==> s.reversed)
      && ReadSigned(o[2..]) == s.prevChainLength
  {
    var o := FlagsOctets(s) + rest;
    assert o[2..] == IntOctets(s.prevChainLength) + rest;
    ReadInt(s.prevChainLength, rest);
  }

  lemma Regrouped(a: Octets, b: Octets, c: Octets, d: Octets, rest: Octets)
    ensures a + b + c + d + rest == a + (b + (c + (d + rest)))
  {
  }

  /** Where the groups of four consecutive parts begin. */
  lemma Offsets(o: Octets, a: Octets, b: Octets, c: Octets, d: Octets)
    requires o == a + (b + (c + d))
    ensures |o| == |a| + |b| + |c| + |d|
    ensures o[|a|..] == b + (c + d)
    ensures o[|a| + |b|..] == c + d
    ensures o[|a| + |b| + |c|..] == d
  {
    Dropped(a, b + (c + d), |a|);
    Dropped(b, c + d, |b|);
    assert o[|a| + |b|..] == o[|a|..][|b|..];
    assert o[|a| + |b| + |c|..] == o[|a| + |b|..][|c|..];
  }

  lemma MapOfOrder(m: map<int, Term>, order: seq<int>)
    requires IsOrder(order, m)
    ensures (map k | k in order :: m[k]) == m
  {
    var read := map k | k in order :: m[k];
    assert forall k :: k in read <==> k in m;
    assert forall k | k in m :: read[k] == m[k];
  }

  /** Reading back what was written gives every field the protocol reads, and stops at its end,
      for every state, every traversal order and whatever follows in the stream. */
  lemma RoundTrip(s: State, order: seq<int>, rest: Octets)
    requires Fits(s) && IsOrder(order, s.skippedKeys)
    ensures Complete(Encode(s, order) + rest)
    ensures Length(Encode(s, order) + rest) == |Encode(s, order)| == 210 + 36 * |s.skippedKeys|
    ensures Decode(Encode(s, order) + rest) == Observe(s)
  {
    hide ReadKey, ReadChain, ReadSigned, ReadEntries, ByteValue;
    var o := Encode(s, order) + rest;
    var entries, flags := EntriesOctets(s.skippedKeys, order), FlagsOctets(s) + rest;
    assert o == KeysOctets(s) + (CountedChainsOctets(s) + (entries + flags)) by {
      Regrouped(KeysOctets(s), CountedChainsOctets(s), entries, FlagsOctets(s), rest);
    }
    DecodeKeys(s, CountedChainsOctets(s) + (entries + flags));
    DecodeRest(s, order, o, rest);
  }

  lemma ReadOrder(s: State, order: seq<int>, rest: Octets)
    requires Fits(s) && IsOrder(order, s.skippedKeys)
    ensures ReadEntries(EntriesOctets(s.skippedKeys, order) + rest, |order|) == s.skippedKeys
    ensures |order| == |s.skippedKeys|
  {
    ReadEntriesOctets(s.skippedKeys, order, rest);
    MapOfOrder(s.skippedKeys, order);
  }

  lemma DecodeRest(s: State, order: seq<int>, o: Octets, rest: Octets)
    requires Fits(s) && IsOrder(order, s.skippedKeys)
    requires o == KeysOctets(s)
      + (CountedChainsOctets(s) + (EntriesOctets(s.skippedKeys, order) + (FlagsOctets(s) + rest)))
    ensures |o| >= 210 + 36 * |order| && Count(o) == |order|
    ensures ReadChain(o[128..]) == s.sendChain && ReadChain(o[164..]) == s.receiveChain
    ensures ReadEntries(o[204..], |order|) == s.skippedKeys
    ensures var flags := o[204 + 36 * |order|..];
      (ByteValue(flags[0]) != 0 <==> s.dueToSendNewDh) && (ByteValue(flags[1]) != 0 <==> s.reversed)
      && ReadSigned(flags[2..]) == s.prevChainLength
  {
    hide Fits, ReadKey, ReadChain, ReadSigned, ReadUnsigned, ReadEntries, ByteValue;
    var entries, flags := EntriesOctets(s.skippedKeys, order), FlagsOctets(s) + rest;
    Offsets(o, KeysOctets(s), CountedChainsOctets(s), entries, flags);
    assert o[164..] == o[128..][36..] && o[200..] == o[128..][72..];
    DecodeCountedChains(s, entries + flags);
    ReadOrder(s, order, flags);
    DecodeFlags(s, rest);
  }

  lemma ReadsBack(s: State, order: seq<int>)
    requires Fits(s) && IsOrder(order, s.skippedKeys)
    ensures Complete(Encode(s, order)) && Decode(Encode(s, order)) == Observe(s)
  {
    RoundTrip(s, order, []);
    assert Encode(s, order) + [] == Encode(s, order);
  }

  /** No two states that differ in a field the protocol reads have encodings one of which starts the other. */
  lemma EncodingsDetermineStates(s: State, order: seq<int>, rest: Octets, s': State, order': seq<int>, rest': Octets)
    requires Fits(s) && IsOrder(order, s.skippedKeys) && Fits(s') && IsOrder(order', s'.skippedKeys)
    requires Encode(s, order) + rest == Encode(s', order') + rest'
    ensures Observe(s) == Observe(s') && rest == rest'
  {
    RoundTrip(s, order, rest);
    RoundTrip(s', order', rest');
    assert rest == (Encode(s, order) + rest)[|Encode(s, order)|..];
    assert rest' == (Encode(s', order') + rest')[|Encode(s', order')|..];
  }

  // ---- Where each byte is ----

  /** Four bytes, the least significant first, of a number modulo 2^32. */
  predicate IsLittleEndian(o: Octets, v: int) {
    && |o| == 4 && (forall i | 0 <= i < 4 :: o[i].Lit? && 0 <= o[i].value < 256)
    && o[0].value + 0x100 * o[1].value + 0x1_0000 * o[2].value + 0x100_0000 * o[3].value == v % 0x1_0000_0000
  }

  lemma IntIsLittleEndian(v: int)
    ensures IsLittleEndian(IntOctets(v), v)
  {
    var u0 := v % TWO_32;
    var u1 := u0 / 0x100;
    var u2 := u1 / 0x100;
    assert 0 <= u2 / 0x100 < 0x100;
  }

  lemma {:induction false} EntryAt(m: map<int, Term>, order: seq<int>, j: nat)
    requires (forall k | k in order :: k in m) && j < |order|
    ensures EntriesOctets(m, order)[36 * j..36 * j + 36] == EntryOctets(order[j], m[order[j]])
    decreases |order|
  {
    hide EntryOctets;
    var last := |order| - 1;
    var init := order[..last];
    assert EntriesOctets(m, order) == EntriesOctets(m, init) + EntryOctets(order[last], m[order[last]]);
    if j < last {
      EntryAt(m, init, j);
      assert EntriesOctets(m, order)[36 * j..36 * j + 36] == EntriesOctets(m, init)[36 * j..36 * j + 36];
    }
  }

  /** Where every field of an encoding is: keys, chains and the number of entries, the entries, and the flags at the
      end. */
  lemma Layout(s: State, order: seq<int>)
    requires forall k | k in order :: k in s.skippedKeys
    ensures var o, n := Encode(s, order), |order|;
      && |o| == 210 + 36 * n
      && o[..32] == Bytes(s.rootKey, 32) && o[32..64] == Bytes(s.localDhPublic, 32)
      && o[64..96] == s.localDhPriv[..32] && o[96..128] == Bytes(s.remoteDhPublic, 32)
      && o[128..160] == Bytes(s.sendChain.key, 32) && IsLittleEndian(o[160..164], s.sendChain.index)
      && o[164..196] == Bytes(s.receiveChain.key, 32) && IsLittleEndian(o[196..200], s.receiveChain.index)
      && IsLittleEndian(o[200..204], |s.skippedKeys|)
    ensures var o, n := Encode(s, order), |order|;
      && o[204 + 36 * n] == Lit(if s.dueToSendNewDh then 1 else 0)
      && o[205 + 36 * n] == Lit(if s.reversed then 1 else 0)
      && IsLittleEndian(o[206 + 36 * n..], s.prevChainLength)
    ensures var o := Encode(s, order);
      forall j | 0 <= j < |order| ::
        && IsLittleEndian(o[204 + 36 * j..208 + 36 * j], order[j])
        && o[208 + 36 * j..240 + 36 * j] == Bytes(s.skippedKeys[order[j]], 32)
  {
    LayoutFront(s, order);
    LayoutFlags(s, order);
    forall j | 0 <= j < |order|
      ensures var o := Encode(s, order);
        && IsLittleEndian(o[204 + 36 * j..208 + 36 * j], order[j])
        && o[208 + 36 * j..240 + 36 * j] == Bytes(s.skippedKeys[order[j]], 32)
    {
      LayoutEntry(s, order, j);
    }
  }

  lemma LayoutFront(s: State, order: seq<int>)
    requires forall k | k in order :: k in s.skippedKeys
    ensures var o := Encode(s, order);
      && o[..32] == Bytes(s.rootKey, 32) && o[32..64] == Bytes(s.localDhPublic, 32)
      && o[64..96] == s.localDhPriv[..32] && o[96..128] == Bytes(s.remoteDhPublic, 32)
      && o[128..160] == Bytes(s.sendChain.key, 32) && IsLittleEndian(o[160..164], s.sendChain.index)
      && o[164..196] == Bytes(s.receiveChain.key, 32) && IsLittleEndian(o[196..200], s.receiveChain.index)
      && IsLittleEndian(o[200..204], |s.skippedKeys|)
  {
    hide IntOctets, IsLittleEndian, EntriesOctets, FlagsOctets, Bytes;
    var o, send, receive := Encode(s, order), ChainOctets(s.sendChain), ChainOctets(s.receiveChain);
    assert o[..128] == KeysOctets(s) && o[128..204] == CountedChainsOctets(s);
    assert o[128..164] == CountedChainsOctets(s)[..36] == send;
    assert o[164..200] == CountedChainsOctets(s)[36..72] == receive;
    assert o[200..204] == CountedChainsOctets(s)[72..] == IntOctets(|s.skippedKeys|);
    assert o[128..160] == send[..32] && o[160..164] == send[32..];
    assert o[164..196] == receive[..32] && o[196..200] == receive[32..];
    assert o[..32] == KeysOctets(s)[..32] && o[32..64] == KeysOctets(s)[32..64];
    assert o[64..96] == KeysOctets(s)[64..96] && o[96..128] == KeysOctets(s)[96..];
    IntIsLittleEndian(s.sendChain.index);
    IntIsLittleEndian(s.receiveChain.index);
    IntIsLittleEndian(|s.skippedKeys|);
  }

  lemma LayoutFlags(s: State, order: seq<int>)
    requires forall k | k in order :: k in s.skippedKeys
    ensures var o, n := Encode(s, order), |order|;
      && o[204 + 36 * n] == Lit(if s.dueToSendNewDh then 1 else 0)
      && o[205 + 36 * n] == Lit(if s.reversed then 1 else 0)
      && IsLittleEndian(o[206 + 36 * n..], s.prevChainLength)
  {
    hide IntOctets, IsLittleEndian, EntriesOctets, KeysOctets, CountedChainsOctets;
    var o := Encode(s, order);
    assert o[204 + 36 * |order|..] == FlagsOctets(s);
    assert o[206 + 36 * |order|..] == FlagsOctets(s)[2..] == IntOctets(s.prevChainLength);
    IntIsLittleEndian(s.prevChainLength);
  }

  lemma LayoutEntry(s: State, order: seq<int>, j: nat)
    requires (forall k | k in order :: k in s.skippedKeys) && j < |order|
    ensures var o := Encode(s, order);
      && IsLittleEndian(o[204 + 36 * j..208 + 36 * j], order[j])
      && o[208 + 36 * j..240 + 36 * j] == Bytes(s.skippedKeys[order[j]], 32)
  {
    hide IntOctets, IsLittleEndian, EntriesOctets, KeysOctets, CountedChainsOctets, FlagsOctets, Bytes;
    var o, entries := Encode(s, order), EntriesOctets(s.skippedKeys, order);
    var entry := EntryOctets(order[j], s.skippedKeys[order[j]]);
    EntryAt(s.skippedKeys, order, j);
    assert o[204 + 36 * j..240 + 36 * j] == entries[36 * j..36 * j + 36] == entry;
    assert o[204 + 36 * j..208 + 36 * j] == entry[..4] && o[208 + 36 * j..240 + 36 * j] == entry[4..];
    IntIsLittleEndian(order[j]);
  }
}
