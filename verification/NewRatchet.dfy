/** The mutable ratchet object, method by method, proved against the state functions of Ratchet. */
module NewRatchet {
  import opened Crypto
  import Sets
  import opened Ratchet
  import opened Codec
  import opened Database
  import K = KeySchedule

  class NewRatchet {
    var reversed: bool
    var dueToSendNewDh: bool
    var rootKey: Term
    var sendChain: Chain
    var receiveChain: Chain
    var localDhPublic: Term
    var localDhPriv: Buffer
    var remoteDhPublic: Term
    var skippedKeys: map<int, Term>
    var prevChainLength: int

    ghost function View(): State
      reads this
    {
      State(reversed, dueToSendNewDh, rootKey, sendChain, receiveChain, localDhPublic, localDhPriv,
                  remoteDhPublic, skippedKeys, prevChainLength)
    }

    /** The recipient of a handshake: its own pair is the signed prekey, read from the database.
        prevChainLength is never initialised; unset is what its memory happens to hold. */
    constructor ForRecipient(sharedSecret: Term, otherKey: Term, signedPublic: Term, signedPriv: Buffer, unset: int)
      ensures View() == Initial(true, sharedSecret, signedPublic, signedPriv, otherKey, unset)
    {
      rootKey := sharedSecret;
      reversed := true;
      localDhPriv := signedPriv;
      localDhPublic := signedPublic;
      remoteDhPublic := otherKey;
      sendChain, receiveChain := Chain(0, sharedSecret), Chain(0, sharedSecret);
      dueToSendNewDh := false;
      skippedKeys := map[];
      prevChainLength := unset;
      new;
      SetUpInitialChainKeys();
    }

    constructor ForInitiator(
        sharedSecret: Term, otherKey: Term, ephemeralPublic: Term, ephemeralPriv: Buffer, unset: int)
      ensures View() == Initial(false, sharedSecret, ephemeralPublic, ephemeralPriv[..KEY_LENGTH], otherKey, unset)
    {
      rootKey := sharedSecret;
      reversed := false;
      localDhPublic := ephemeralPublic;
      localDhPriv := ephemeralPriv[..KEY_LENGTH];
      remoteDhPublic := otherKey;
      sendChain, receiveChain := Chain(0, sharedSecret), Chain(0, sharedSecret);
      dueToSendNewDh := false;
      skippedKeys := map[];
      prevChainLength := unset;
      new;
      SetUpInitialChainKeys();
    }

    method SetUpInitialChainKeys()
      modifies this
      ensures View() == WithInitialChains(old(View()))
    {
      var kdfKey := KdfKey(DhValue());
      sendChain := sendChain.(key := Kdf(0, DRXsend1, kdfKey));
      receiveChain := receiveChain.(key := Kdf(1, DRXrecv1, kdfKey));
      rootKey := Kdf(2, DRXroot1, kdfKey);
      if reversed {
        var tmp := sendChain.key;
        sendChain := sendChain.(key := receiveChain.key);
        receiveChain := receiveChain.(key := tmp);
      }
      dueToSendNewDh := false;
    }

    /** dh(): the local private scalar with the remote public key. */
    function DhValue(): (output: Term)
      reads this
      ensures output == DhOutput(View())
    {
      Dh(Word(localDhPriv[..KEY_LENGTH]), remoteDhPublic)
    }

    method GenerateNewLocalDhKeypair(drawn: nat)
      modifies this`localDhPublic, this`localDhPriv
      ensures View() == WithNewKeypair(old(View()), drawn)
    {
      localDhPublic := Public(Box(drawn));
      localDhPriv := Bytes(Secret(Box(drawn)), KEY_LENGTH) + localDhPriv[KEY_LENGTH..];
    }

    method RatchetStep(receivedNewDh: bool, drawn: nat)
      modifies this
      ensures View() == DhRatchetStep(old(View()), receivedNewDh, drawn)
    {
      var kdfKey := KdfKey(DhValue());
      var newRootKey := Kdf(0, DHRatche, kdfKey);
      var newChainKey := Kdf(1, DHRatche, kdfKey);
      rootKey := newRootKey;
      if receivedNewDh {
        receiveChain := Chain(0, newChainKey);
        GenerateNewLocalDhKeypair(drawn);
        var newKdfKey := KdfKey(DhValue());
        rootKey := Kdf(0, DHRatche, newKdfKey);
        sendChain := Chain(0, Kdf(1, DHRatche, newKdfKey));
      } else {
        sendChain := Chain(0, newChainKey);
      }
    }

    method AdvanceSend() returns (key: Term, header: Header)
      modifies this
      ensures View() == AfterSend(old(View()))
      ensures key == SentKey(old(View())) && header == SentHeader(old(View()))
      ensures var dh := Dh(Word(old(localDhPriv)[..32]), old(remoteDhPublic));
        key == K.NthKey(if old(dueToSendNewDh) then Kdf(1, DHRatche, Hash(Bytes(dh, 32))) else old(sendChain.key), 0)
    {
      K.NextSent(View());
      if dueToSendNewDh {
        RatchetStep(false, 0);
        dueToSendNewDh := false;
      }
      key, header := ProgressSendingRatchet();
    }

    method ProgressSendingRatchet() returns (key: Term, header: Header)
      modifies this`sendChain
      ensures key == MessageKey(old(sendChain.key))
      ensures header == Header(localDhPublic, receiveChain.index, old(sendChain.index), NO_DEVICE, "")
      ensures sendChain == Chain(old(sendChain.index) + 1, NextKey(old(sendChain.key)))
    {
      header := Header(localDhPublic, receiveChain.index, sendChain.index, NO_DEVICE, "");
      key := MessageKey(sendChain.key);
      sendChain := Chain(sendChain.index + 1, NextKey(sendChain.key));
    }

    method ProgressReceiveRatchet() returns (key: Term)
      modifies this`receiveChain
      ensures key == MessageKey(old(receiveChain.key))
      ensures receiveChain == Chain(old(receiveChain.index), NextKey(old(receiveChain.key)))
    {
      key := MessageKey(receiveChain.key);
      receiveChain := receiveChain.(key := NextKey(receiveChain.key));
    }

    method AdvanceReceive(header: Header, drawn: nat) returns (outcome: Outcome)
      modifies this
      ensures (View(), outcome) == Ratchet.AdvanceReceive(old(View()), header, drawn)
      ensures header.dhPublic == old(remoteDhPublic) && old(receiveChain.index) <= header.messageIndex ==>
        outcome == Received(K.NthKey(old(receiveChain.key), header.messageIndex - old(receiveChain.index)))
      ensures header.dhPublic != old(remoteDhPublic) && 0 <= header.messageIndex ==>
        var dh := Dh(Word(old(localDhPriv)[..32]), header.dhPublic);
        outcome == Received(K.NthKey(Kdf(1, DHRatche, Hash(Bytes(dh, 32))), header.messageIndex))
    {
      ReceivedKeys(header, drawn);
      if remoteDhPublic != header.dhPublic {
        CacheOldEpoch(header.prevChainLength);
        remoteDhPublic := header.dhPublic;
        RatchetStep(true, drawn);
        dueToSendNewDh := true;
      }
      if header.messageIndex < receiveChain.index {
        if header.messageIndex !in skippedKeys {
          return KeyNotFound;
        }
        outcome := Received(skippedKeys[header.messageIndex]);
        skippedKeys := skippedKeys - {header.messageIndex};
        return;
      }
      outcome := TakeFromChain(header.messageIndex);
    }

    lemma ReceivedKeys(header: Header, drawn: nat)
      ensures var outcome := Ratchet.AdvanceReceive(View(), header, drawn).1;
        && (header.dhPublic == remoteDhPublic && receiveChain.index <= header.messageIndex ==>
              outcome == Received(K.NthKey(receiveChain.key, header.messageIndex - receiveChain.index)))
        && (header.dhPublic != remoteDhPublic && 0 <= header.messageIndex ==>
              var dh := Dh(Word(localDhPriv[..32]), header.dhPublic);
              outcome == Received(K.NthKey(Kdf(1, DHRatche, Hash(Bytes(dh, 32))), header.messageIndex)))
    {
      hide Ratchet.AdvanceReceive, K.NthKey;
      if header.dhPublic != remoteDhPublic {
        if 0 <= header.messageIndex {
          K.UnseenReceived(View(), header, drawn);
        }
      } else if receiveChain.index <= header.messageIndex {
        K.NextReceived(View(), header, drawn);
      }
    }

    /** The loop that runs before an unseen key is adopted: it numbers the keys it stores from
        prevChainLength, and moves the chain on without moving its index. */
    method CacheOldEpoch(prevChainLength: int)
      modifies this`receiveChain, this`skippedKeys
      ensures skippedKeys
           == old(skippedKeys) + SkippedRange(old(receiveChain.key), prevChainLength, old(receiveChain.index))
      ensures var index := old(receiveChain.index);
        var passed := if prevChainLength < index then index - prevChainLength else 0;
        receiveChain == Chain(index, ChainKey(old(receiveChain.key), passed))
    {
      ghost var start := receiveChain.key;
      var skippedCount := receiveChain.index;
      var i := prevChainLength;
      while i < skippedCount
        invariant prevChainLength <= i && (i <= skippedCount || i == prevChainLength)
        invariant receiveChain == Chain(skippedCount, ChainKey(start, i - prevChainLength))
        invariant skippedKeys == old(skippedKeys) + SkippedRange(start, prevChainLength, i)
      {
        var messageKey := ProgressReceiveRatchet();
        assert messageKey == KeyFrom(start, prevChainLength, i);
        skippedKeys := skippedKeys[i := messageKey];
        i := i + 1;
      }
    }

    /** The loop at the end of advance_receive; the throw after it cannot be reached. */
    method TakeFromChain(messageIndex: int) returns (outcome: Outcome)
      requires receiveChain.index <= messageIndex
      modifies this`receiveChain, this`skippedKeys
      ensures (View(), outcome) == TakeKey(old(View()), messageIndex)
    {
      ghost var lo, start := receiveChain.index, receiveChain.key;
      var i := receiveChain.index;
      while i <= messageIndex
        invariant lo <= i <= messageIndex
        invariant receiveChain == Chain(lo, ChainKey(start, i - lo))
        invariant skippedKeys == old(skippedKeys) + SkippedRange(start, lo, i)
      {
        var messageKey := ProgressReceiveRatchet();
        assert messageKey == KeyFrom(start, lo, i);
        if i == messageIndex {
          receiveChain := receiveChain.(index := i + 1);
          return Received(messageKey);
        }
        skippedKeys := skippedKeys[i := messageKey];
        i := i + 1;
      }
      assert false;
    }

    // ---- Serialisation ----

    /** Restores a saved ratchet. */
    constructor FromBytes(serialised: seq<Octet>)
      requires Complete(serialised)
      ensures View() == Decode(serialised)
    {
      rootKey, localDhPublic, remoteDhPublic := NO_DEVICE, NO_DEVICE, NO_DEVICE;
      localDhPriv := Zeros(KEY_LENGTH);
      sendChain, receiveChain := Chain(0, NO_DEVICE), Chain(0, NO_DEVICE);
      new;
      var _ := Deserialise(serialised);
    }

    /** Appends the backlog entries in the order the hash table yields them. */
    method SerialiseEntries(out: seq<Octet>) returns (written: seq<Octet>, ghost order: seq<int>)
      ensures IsOrder(order, skippedKeys)
      ensures written == out + EntriesOctets(skippedKeys, order)
    {
      written, order := out, [];
      var remaining := skippedKeys.Keys;
      while remaining != {}
        invariant remaining <= skippedKeys.Keys && |order| + |remaining| == |skippedKeys|
        invariant forall k :: k in order <==> k in skippedKeys.Keys - remaining
        invariant written == out + EntriesOctets(skippedKeys, order)
      {
        Sets.ElementOfInts(remaining);
        var k :| k in remaining;
        written := written + EntryOctets(k, skippedKeys[k]);
        assert (order + [k])[..|order|] == order;
        order := order + [k];
        remaining := remaining - {k};
      }
    }

    method Serialise() returns (out: seq<Octet>)
      ensures exists order :: IsOrder(order, skippedKeys) && out == Encode(View(), order)
    {
      ghost var order;
      out := KeyOctets(rootKey) + KeyOctets(localDhPublic) + localDhPriv[..KEY_LENGTH] + KeyOctets(remoteDhPublic);
      out := out + (ChainOctets(sendChain) + ChainOctets(receiveChain) + IntOctets(|skippedKeys|));
      out, order := SerialiseEntries(out);
      out := out + (BoolOctets(dueToSendNewDh) + BoolOctets(reversed) + IntOctets(prevChainLength));
    }

    /** Reads the entries one by one into an emptied backlog. */
    method DeserialiseEntries(input: seq<Octet>, count: nat)
      requires |input| >= 36 * count
      modifies this`skippedKeys
      ensures skippedKeys == ReadEntries(input, count)
    {
      skippedKeys := map[];
      for i := 0 to count
        invariant skippedKeys == ReadEntries(input, i)
      {
        var entry := input[36 * i..];
        skippedKeys := skippedKeys[ReadSigned(entry) := ReadKey(entry[4..])];
      }
    }

    method Deserialise(input: seq<Octet>) returns (consumed: nat)
      requires Complete(input)
      modifies this
      ensures View() == Decode(input) && consumed == Length(input)
    {
      hide ReadKey, ReadChain, ReadSigned, ReadEntries, ByteValue;
      rootKey := ReadKey(input);
      localDhPublic := ReadKey(input[32..]);
      localDhPriv := input[64..96];
      remoteDhPublic := ReadKey(input[96..]);
      sendChain := ReadChain(input[128..]);
      receiveChain := ReadChain(input[164..]);
      var skippedCount := ReadUnsigned(input[200..]);
      DeserialiseEntries(input[204..], skippedCount);
      var flags := input[204 + 36 * skippedCount..];
      dueToSendNewDh := ByteValue(flags[0]) != 0;
      reversed := ByteValue(flags[1]) != 0;
      prevChainLength := ReadSigned(flags[2..]);
      consumed := 210 + 36 * skippedCount;
    }

    /** Seals the bytes under a one-off key, wraps that key, and replaces the rows of this device. */
    method Save(db: Database, user: string, device: DeviceId, kek: Term)
      modifies db`ratchets, db`ratchetKeys
      ensures RowsWritten(old(db.View()), db.View(), kek, map[device := (user, Observe(View()))])
      ensures Fits(View()) ==> RatchetSaved(old(db.View()), db.View(), kek, user, device, View())
    {
      var bytes := Serialise();
      ghost var order :| IsOrder(order, skippedKeys) && bytes == Encode(View(), order);
      var nonce: Term, keyNonce: Term, key: Term := *, *, *;
      db.SaveRatchetAndKey(
        user, device, Seal(key, nonce, bytes), nonce, EncryptSymmetricKey(key, keyNonce, kek), keyNonce);
      ReplacedRow(old(db.View()), db.View(), kek, user, device, View(), order, key, nonce, keyNonce);
      if Fits(View()) {
        WrittenRowReadsBack(old(db.View()), db.View(), kek, user, device, View());
      }
    }
  }
}
