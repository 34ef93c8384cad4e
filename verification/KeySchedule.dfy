/** The keys of a session, derivation by derivation: which Diffie-Hellman output, which hash, which key number and which
    context each of them comes from. */
module KeySchedule {
  import opened Crypto
  import opened Ratchet
  import Backlog

  /** The key that all keys of one Diffie-Hellman output are derived from. */
  function Hashed(a: Seed, b: Seed): Term {
    Hash(Bytes(SharedBy(a, b), 32))
  }

  /** A chain key n messages after `base`. */
  function Onward(base: Term, n: nat): Term {
    if n == 0 then base else Kdf(1, DRSndKey, Onward(base, n - 1))
  }

  /** The key of message n of the chain that begins with `base`. */
  function NthKey(base: Term, n: nat): Term {
    Kdf(0, DRSndKey, Onward(base, n))
  }

  /** The first 32 bytes of the private buffer are those of the seed's scalar. */
  predicate HasScalar(s: State, seed: Seed) {
    Word(s.localDhPriv[..32]) == Secret(seed)
  }

  lemma {:induction false} OnwardIsChainKey(base: Term, n: nat)
    ensures ChainKey(base, n) == Onward(base, n) && MessageKeyAt(base, n) == NthKey(base, n)
  {
    if n > 0 {
      OnwardIsChainKey(base, n - 1);
    }
  }

  lemma RangeKeys(key: Term, lo: int, hi: int)
    ensures forall i :: i in SkippedRange(key, lo, hi) <==> lo <= i < hi
    ensures forall i | i in SkippedRange(key, lo, hi) :: SkippedRange(key, lo, hi)[i] == NthKey(key, i - lo)
  {
    forall i | i in SkippedRange(key, lo, hi) ensures SkippedRange(key, lo, hi)[i] == NthKey(key, i - lo) {
      OnwardIsChainKey(key, i - lo);
    }
  }

  /** A backlog after the keys of the indices from lo to hi were put into it, from a chain that stood at `key`. */
  ghost predicate Passed(before: map<int, Term>, after: map<int, Term>, key: Term, lo: int, hi: int) {
    && (forall i :: i in after <==> i in before || lo <= i < hi)
    && (forall i | i in after :: after[i] == if lo <= i < hi then NthKey(key, i - lo) else before[i])
  }

  lemma RangePassed(before: map<int, Term>, key: Term, lo: int, hi: int)
    ensures Passed(before, before + SkippedRange(key, lo, hi), key, lo, hi)
  {
    hide SkippedRange, NthKey;
    RangeKeys(key, lo, hi);
  }

  // ---- Where chains begin ----

  /** A new session: both chains and the root from one output, the initiator sending on what the responder receives
      on. */
  lemma NewSession(reversed: bool, secret: Term, local: Seed, priv: Buffer, remote: Seed, unset: int)
    requires Word(priv[..32]) == Secret(local)
    ensures var s := Initial(reversed, secret, Public(local), priv, Public(remote), unset);
      var toResponder, toInitiator := Kdf(0, DRXsend1, Hashed(local, remote)), Kdf(1, DRXrecv1, Hashed(local, remote));
      && s.sendChain == Chain(0, if reversed then toInitiator else toResponder)
      && s.receiveChain == Chain(0, if reversed then toResponder else toInitiator)
      && s.rootKey == Kdf(2, DRXroot1, Hashed(local, remote))
      && s.localDhPublic == Public(local) && s.localDhPriv == priv && s.remoteDhPublic == Public(remote)
      && s.reversed == reversed && !s.dueToSendNewDh && s.skippedKeys == map[]
  {
    DhIsShared(local, remote);
  }

  /** An entered epoch: the receive chain from the old keypair, the send chain and the root from the new one, and the
      rest of the old epoch in the backlog. */
  lemma EnteredEpoch(s: State, local: Seed, h: Header, remote: Seed, drawn: nat)
    requires HasScalar(s, local) && h.dhPublic == Public(remote) != s.remoteDhPublic
    ensures var t := EnterEpoch(s, h, drawn);
      && t.receiveChain == Chain(0, Kdf(1, DHRatche, Hashed(local, remote)))
      && t.sendChain == Chain(0, Kdf(1, DHRatche, Hashed(Box(drawn), remote)))
      && t.rootKey == Kdf(0, DHRatche, Hashed(Box(drawn), remote))
      && t.localDhPublic == Public(Box(drawn)) && HasScalar(t, Box(drawn)) && t.remoteDhPublic == Public(remote)
      && t.dueToSendNewDh && t.reversed == s.reversed
      && Passed(s.skippedKeys, t.skippedKeys, s.receiveChain.key, h.prevChainLength, s.receiveChain.index)
  {
    DhIsShared(local, remote);
    DhIsShared(Box(drawn), remote);
    DrawnScalar(s, drawn);
    RangePassed(s.skippedKeys, s.receiveChain.key, h.prevChainLength, s.receiveChain.index);
    hide SkippedRange, Passed, Dh, SharedBy, Word, NthKey;
    assert Scalar(s) == Secret(local);
  }

  lemma DrawnScalar(s: State, drawn: nat)
    ensures Scalar(WithNewKeypair(s, drawn)) == Secret(Box(drawn))
  {
    var secret := Bytes(Secret(Box(drawn)), 32);
    assert (secret + s.localDhPriv[32..])[..32] == secret;
    WordOfBytes(Secret(Box(drawn)), 32);
  }

  // ---- Sending ----

  function AfterSends(s: State, n: nat): State {
    if n == 0 then s else AfterSend(AfterSends(s, n - 1))
  }

  /** Where the next send goes on: an owed step starts the chain again. */
  function SendBase(s: State, local: Seed, remote: Seed): Chain {
    if s.dueToSendNewDh then Chain(0, Kdf(1, DHRatche, Hashed(local, remote))) else s.sendChain
  }

  lemma {:induction false} SendingOn(s: State, local: Seed, remote: Seed, n: nat)
    requires HasScalar(s, local) && s.remoteDhPublic == Public(remote)
    ensures var t, base := AfterSends(s, n), SendBase(s, local, remote);
      && t.localDhPublic == s.localDhPublic && t.localDhPriv == s.localDhPriv && t.remoteDhPublic == s.remoteDhPublic
      && t.receiveChain == s.receiveChain && t.skippedKeys == s.skippedKeys
      && SendBase(t, local, remote) == Chain(base.index + n, Onward(base.key, n))
  {
    DhIsShared(local, remote);
    if n > 0 {
      SendingOn(s, local, remote, n - 1);
    }
  }

  /** The key and header of the n-th send from a state on. */
  lemma NthSent(s: State, local: Seed, remote: Seed, n: nat)
    requires HasScalar(s, local) && s.remoteDhPublic == Public(remote)
    ensures var t, base := AfterSends(s, n), SendBase(s, local, remote);
      && SentKey(t) == NthKey(base.key, n)
      && SentHeader(t) == Header(s.localDhPublic, s.receiveChain.index, base.index + n, Raw(seq(32, _ => Lit(0))), "")
  {
    SendingOn(s, local, remote, n);
    DhIsShared(local, remote);
    assert Zeros(32) == seq(32, _ => Lit(0));
  }

  /** The n-th key that either end of a new session sends. */
  lemma NewSessionSends(reversed: bool, secret: Term, local: Seed, priv: Buffer, remote: Seed, unset: int, n: nat)
    requires Word(priv[..32]) == Secret(local)
    ensures var s := Initial(reversed, secret, Public(local), priv, Public(remote), unset);
      var base := if reversed then Kdf(1, DRXrecv1, Hashed(local, remote)) else Kdf(0, DRXsend1, Hashed(local, remote));
      SentKey(AfterSends(s, n)) == NthKey(base, n)
  {
    NewSession(reversed, secret, local, priv, remote, unset);
    NthSent(Initial(reversed, secret, Public(local), priv, Public(remote), unset), local, remote, n);
  }

  /** The n-th key sent after entering an epoch, whatever was received on the way in. */
  lemma EnteredEpochSends(s: State, local: Seed, h: Header, remote: Seed, drawn: nat, n: nat)
    requires HasScalar(s, local) && h.dhPublic == Public(remote) != s.remoteDhPublic
    ensures var t := AfterSends(AdvanceReceive(s, h, drawn).0, n);
      && SentKey(t) == NthKey(Kdf(1, DHRatche, Hashed(Box(drawn), remote)), n)
      && SentHeader(t).dhPublic == Public(Box(drawn)) && SentHeader(t).messageIndex == n
  {
    EnteredEpoch(s, local, h, remote, drawn);
    TakingKeepsSending(EnterEpoch(s, h, drawn), h.messageIndex);
    NthSent(AdvanceReceive(s, h, drawn).0, Box(drawn), remote, n);
  }

  lemma TakingKeepsSending(s: State, n: int)
    ensures var t := TakeKey(s, n).0; t == s.(receiveChain := t.receiveChain, skippedKeys := t.skippedKeys)
  {
  }

  // ---- Receiving ----

  /** Taking a message of the epoch that is tracked: the key of its index, with those of the indices passed kept. */
  lemma NextReceived(s: State, h: Header, drawn: nat)
    requires h.dhPublic == s.remoteDhPublic && s.receiveChain.index <= h.messageIndex
    ensures var (t, outcome) := AdvanceReceive(s, h, drawn);
      var index, key := s.receiveChain.index, s.receiveChain.key;
      && outcome == Received(NthKey(key, h.messageIndex - index))
      && t.receiveChain == Chain(h.messageIndex + 1, Onward(key, h.messageIndex + 1 - index))
      && Passed(s.skippedKeys, t.skippedKeys, key, index, h.messageIndex)
  {
    var index, key := s.receiveChain.index, s.receiveChain.key;
    OnwardIsChainKey(key, h.messageIndex + 1 - index);
    OnwardIsChainKey(key, h.messageIndex - index);
    RangePassed(s.skippedKeys, key, index, h.messageIndex);
    hide SkippedRange, NthKey, Onward, Passed, ChainKey, MessageKeyAt;
  }

  /** Taking the first message of an unseen key, for any keypairs. */
  lemma UnseenReceived(s: State, h: Header, drawn: nat)
    requires h.dhPublic != s.remoteDhPublic && 0 <= h.messageIndex
    ensures AdvanceReceive(s, h, drawn).1
         == Received(NthKey(
              Kdf(1, DHRatche, Hash(Bytes(Dh(Word(s.localDhPriv[..32]), h.dhPublic), 32))), h.messageIndex))
  {
    var base := EnterEpoch(s, h, drawn).receiveChain.key;
    OnwardIsChainKey(base, h.messageIndex);
    hide ChainKey, SkippedRange, MessageKeyAt, NthKey;
  }

  /** The next key sent, for any keypairs. */
  lemma NextSent(s: State)
    ensures SentKey(s)
         == NthKey(if s.dueToSendNewDh
                   then Kdf(1, DHRatche, Hash(Bytes(Dh(Word(s.localDhPriv[..32]), s.remoteDhPublic), 32)))
                   else s.sendChain.key, 0)
  {
  }

  lemma FirstOfChain(s: State, hs: seq<Header>, k: nat)
    requires s.receiveChain.index == 0 && forall j | 0 <= j < |hs| :: hs[j].dhPublic == s.remoteDhPublic
    requires k < |hs| && 0 <= hs[k].messageIndex && !Backlog.SeenIn(hs[..k], hs[k].messageIndex)
    ensures Backlog.Outcomes(s, hs)[k] == Received(NthKey(s.receiveChain.key, hs[k].messageIndex))
  {
    var m := Backlog.Model(s.receiveChain.key, 0, {}, s.skippedKeys);
    assert Backlog.KeysAt(s.receiveChain.key, {}) == map[];
    Backlog.OutOfOrder(m, s, hs, k);
    OnwardIsChainKey(s.receiveChain.key, hs[k].messageIndex);
  }

  /** In every delivery order, the first time message n arrives at either end of a new session. */
  lemma NewSessionReceives(
      reversed: bool, secret: Term, local: Seed, priv: Buffer, remote: Seed, unset: int, hs: seq<Header>, k: nat)
    requires Word(priv[..32]) == Secret(local)
    requires forall j | 0 <= j < |hs| :: hs[j].dhPublic == Public(remote)
    requires k < |hs| && 0 <= hs[k].messageIndex && !Backlog.SeenIn(hs[..k], hs[k].messageIndex)
    ensures var s := Initial(reversed, secret, Public(local), priv, Public(remote), unset);
      var base := if reversed then Kdf(0, DRXsend1, Hashed(local, remote)) else Kdf(1, DRXrecv1, Hashed(local, remote));
      Backlog.Outcomes(s, hs)[k] == Received(NthKey(base, hs[k].messageIndex))
  {
    NewSession(reversed, secret, local, priv, remote, unset);
    FirstOfChain(Initial(reversed, secret, Public(local), priv, Public(remote), unset), hs, k);
  }

  /** The same in an epoch that was just entered, whatever older keys are in the backlog. */
  lemma EnteredEpochReceives(s: State, local: Seed, h: Header, remote: Seed, drawn: nat, hs: seq<Header>, k: nat)
    requires HasScalar(s, local) && h.dhPublic == Public(remote) != s.remoteDhPublic
    requires forall j | 0 <= j < |hs| :: hs[j].dhPublic == Public(remote)
    requires k < |hs| && 0 <= hs[k].messageIndex && !Backlog.SeenIn(hs[..k], hs[k].messageIndex)
    ensures Backlog.Outcomes(EnterEpoch(s, h, drawn), hs)[k]
         == Received(NthKey(Kdf(1, DHRatche, Hashed(local, remote)), hs[k].messageIndex))
  {
    EnteredEpoch(s, local, h, remote, drawn);
    FirstOfChain(EnterEpoch(s, h, drawn), hs, k);
  }
}
