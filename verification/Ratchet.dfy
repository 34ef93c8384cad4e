/** The state of a ratchet as a value, and what each operation of NewRatchet does to it.
    Runs of the receive loop are written in closed form over the chain. */
module Ratchet {
  import opened Crypto

  /** A device is known by its Ed25519 public key. */
  type DeviceId = Term

  datatype Chain = Chain(index: int, key: Term)

  datatype Header = Header(
    dhPublic: Term, prevChainLength: int, messageIndex: int, deviceId: Term, fileUuid: string)

  /** A buffer for a private scalar: 32 bytes are read, though it may be longer. */
  type Buffer = o: seq<Octet> | |o| >= KEY_LENGTH witness seq(32, i => Lit(0))

  datatype State = State(
    reversed: bool,
    dueToSendNewDh: bool,
    rootKey: Term,
    sendChain: Chain,
    receiveChain: Chain,
    localDhPublic: Term,
    localDhPriv: Buffer,
    remoteDhPublic: Term,
    skippedKeys: map<int, Term>,
    prevChainLength: int)

  datatype Outcome = Received(key: Term) | KeyNotFound

  const NO_DEVICE: Term := Raw(Zeros(32))

  // ---- Symmetric chains ----

  function MessageKey(chainKey: Term): Term {
    Kdf(0, DRSndKey, chainKey)
  }

  function NextKey(chainKey: Term): Term {
    Kdf(1, DRSndKey, chainKey)
  }

  /** The chain key n steps after `key`. */
  function ChainKey(key: Term, n: int): Term
    decreases n
  {
    if n <= 0 then key else NextKey(ChainKey(key, n - 1))
  }

  /** Random access to the n-th message key of the chain that starts at `key`. */
  function MessageKeyAt(key: Term, n: int): Term {
    MessageKey(ChainKey(key, n))
  }

  lemma {:induction false} ChainKeyAdds(key: Term, m: nat, n: nat)
    ensures ChainKey(ChainKey(key, m), n) == ChainKey(key, m + n)
    decreases n
  {
    if n > 0 {
      ChainKeyAdds(key, m, n - 1);
    }
  }

  /** The key of message i of a chain that stands at `key` when its index is lo. */
  function KeyFrom(key: Term, lo: int, i: int): Term {
    MessageKeyAt(key, i - lo)
  }

  /** The keys the receive loop stores on its way from index lo to index hi, starting from chain key `key`. */
  function SkippedRange(key: Term, lo: int, hi: int): map<int, Term> {
    map i | lo <= i < hi :: KeyFrom(key, lo, i)
  }

  // ---- Diffie-Hellman steps ----

  function Scalar(s: State): Term {
    Word(s.localDhPriv[..KEY_LENGTH])
  }

  function DhOutput(s: State): Term {
    Dh(Scalar(s), s.remoteDhPublic)
  }

  function KdfKey(dhOutput: Term): Term {
    Hash(Bytes(dhOutput, KEY_LENGTH))
  }

  /** The chain and root keys of a later epoch depend only on the Diffie-Hellman output. */
  function EpochKey(dhOutput: Term): Term {
    Kdf(1, DHRatche, KdfKey(dhOutput))
  }

  function EpochRoot(dhOutput: Term): Term {
    Kdf(0, DHRatche, KdfKey(dhOutput))
  }

  function WithNewKeypair(s: State, drawn: nat): State {
    s.(localDhPublic := Public(Box(drawn)),
       localDhPriv := Bytes(Secret(Box(drawn)), KEY_LENGTH) + s.localDhPriv[KEY_LENGTH..])
  }

  function DhRatchetStep(s: State, receivedNewDh: bool, drawn: nat): State {
    var chainKey := EpochKey(DhOutput(s));
    if receivedNewDh then
      var t := WithNewKeypair(s, drawn);
      t.(receiveChain := Chain(0, chainKey),
         sendChain := Chain(0, EpochKey(DhOutput(t))),
         rootKey := EpochRoot(DhOutput(t)))
    else
      s.(sendChain := Chain(0, chainKey), rootKey := EpochRoot(DhOutput(s)))
  }

  // ---- Operations ----

  /** set_up_initial_chain_keys on a ratchet whose keys and role are in place. */
  function WithInitialChains(s: State): State {
    var k := KdfKey(DhOutput(s));
    var first, second := Kdf(0, DRXsend1, k), Kdf(1, DRXrecv1, k);
    s.(sendChain := s.sendChain.(key := if s.reversed then second else first),
       receiveChain := s.receiveChain.(key := if s.reversed then first else second),
       rootKey := Kdf(2, DRXroot1, k),
       dueToSendNewDh := false)
  }

  /** A ratchet just built for either role; `unset` is the value of the field nothing initialises. */
  function Initial(
      reversed: bool, sharedSecret: Term, localPublic: Term, localPriv: Buffer, remote: Term, unset: int): State
  {
    WithInitialChains(
      State(reversed, false, sharedSecret, Chain(0, sharedSecret), Chain(0, sharedSecret),
            localPublic, localPriv, remote, map[], unset))
  }

  function BeforeSend(s: State): State {
    if s.dueToSendNewDh then DhRatchetStep(s, false, 0).(dueToSendNewDh := false) else s
  }

  function AfterSend(s: State): State {
    var t := BeforeSend(s);
    t.(sendChain := Chain(t.sendChain.index + 1, NextKey(t.sendChain.key)))
  }

  function SentKey(s: State): Term {
    MessageKey(BeforeSend(s).sendChain.key)
  }

  function SentHeader(s: State): Header {
    var t := BeforeSend(s);
    Header(t.localDhPublic, t.receiveChain.index, t.sendChain.index, NO_DEVICE, "")
  }

  /** The part of advance_receive that runs when the header carries an unseen key. */
  function EnterEpoch(s: State, h: Header, drawn: nat): State {
    if h.dhPublic == s.remoteDhPublic then s
    else
      var t := s.(
        skippedKeys := s.skippedKeys + SkippedRange(s.receiveChain.key, h.prevChainLength, s.receiveChain.index),
                  remoteDhPublic := h.dhPublic);
      DhRatchetStep(t, true, drawn).(dueToSendNewDh := true)
  }

  /** The rest of advance_receive: look index n up in the backlog, or run the chain up to it. */
  function TakeKey(s: State, n: int): (State, Outcome) {
    var lo, key := s.receiveChain.index, s.receiveChain.key;
    if n < lo then
      if n in s.skippedKeys then (s.(skippedKeys := s.skippedKeys - {n}), Received(s.skippedKeys[n]))
      else (s, KeyNotFound)
    else
      (s.(receiveChain := Chain(n + 1, ChainKey(key, n + 1 - lo)),
          skippedKeys := s.skippedKeys + SkippedRange(key, lo, n)),
       Received(KeyFrom(key, lo, n)))
  }

  function AdvanceReceive(s: State, h: Header, drawn: nat): (State, Outcome) {
    TakeKey(EnterEpoch(s, h, drawn), h.messageIndex)
  }

  /** A header whose key is adopted only for the receive to throw: its index is below the new chain, and nothing was
      stored under it, neither before nor by the loop that closes the old epoch. */
  predicate AdoptedThenThrown(s: State, h: Header) {
    && h.dhPublic != s.remoteDhPublic && h.messageIndex < 0 && h.messageIndex !in s.skippedKeys
    && !(h.prevChainLength <= h.messageIndex < s.receiveChain.index)
  }

  /** A header with the tracked key whose index was passed and is not in the backlog. */
  predicate AlreadyTaken(s: State, h: Header) {
    h.dhPublic == s.remoteDhPublic && h.messageIndex < s.receiveChain.index && h.messageIndex !in s.skippedKeys
  }

  /** Which receives throw, and which of them change the ratchet all the same. */
  lemma ThrowsExactly(s: State, h: Header, drawn: nat)
    ensures AdvanceReceive(s, h, drawn).1 == KeyNotFound <==> AlreadyTaken(s, h) || AdoptedThenThrown(s, h)
    ensures AlreadyTaken(s, h) ==> AdvanceReceive(s, h, drawn).0 == s
    ensures AdoptedThenThrown(s, h) ==> AdvanceReceive(s, h, drawn).0.remoteDhPublic == h.dhPublic
  {
  }

  // ---- The redundant send step ----

  /** When a new key is due, the send chain already is the first one derived from dh(local, remote). */
  ghost predicate DueIsDerived(s: State) {
    s.dueToSendNewDh ==>
      && s.sendChain == Chain(0, EpochKey(DhOutput(s)))
      && s.rootKey == EpochRoot(DhOutput(s))
  }

  lemma SendStepIsRedundant(s: State)
    requires DueIsDerived(s) && s.dueToSendNewDh
    ensures DhRatchetStep(s, false, 0) == s
  {
  }

  lemma DueIsDerivedKept(s: State, h: Header, drawn: nat)
    requires DueIsDerived(s)
    ensures DueIsDerived(AfterSend(s))
    ensures DueIsDerived(AdvanceReceive(s, h, drawn).0)
  {
  }
}
