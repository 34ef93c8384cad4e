/** The two ends of a handshake: what each keeps, the secret each computes and the ratchet each builds. */
module KeyBundle {
  import opened Wrappers
  import opened Crypto
  import opened Ratchet
  import opened HonestSession
  import opened Session
  import X3dh
  import KeySchedule

  datatype Error = InvalidSignature | MissingOnetimeKey | Agreement(x3dh: X3dh.Error)

  /** The private keys a device keeps, as the database returns them. */
  datatype KeyStore = KeyStore(deviceSecret: Term, signedPublic: Term, signedPriv: Buffer, onetime: map<Term, Buffer>)

  datatype Bundle =
    | Sending(ephemeralPublic: Term, ephemeralPriv: Buffer, theirDevicePublic: Term, theirSignedPublic: Term,
              theirOnetimePublic: Option<Term>, theirSignature: Term)
    | Receiving(theirDevicePublic: Term, theirEphemeralPublic: Term, myOnetimePublic: Option<Term>)

  function KeyIn(b: Buffer): Term {
    Word(b[..KEY_LENGTH])
  }

  predicate ValidSignature(signature: Term, signed: Term, device: Term) {
    device.EdPublic? && signature == Signature(device.ed, signed)
  }

  function Lift(r: Result<Term, X3dh.Error>): Result<Term, Error> {
    match r
    case Success(t) => Success(t)
    case Failure(e) => Failure(Agreement(e))
  }

  function SharedSecret(b: Bundle, store: KeyStore): Result<Term, Error> {
    match b
    case Sending(_, ephemeral, device, signed, onetime, signature) =>
      if !ValidSignature(signature, signed, device) then Failure(InvalidSignature)
      else Lift(X3dh.InitiatorSecret(store.deviceSecret, KeyIn(ephemeral), device, signed, onetime))
    case Receiving(device, ephemeral, onetime) =>
      if onetime.Some? && onetime.value !in store.onetime then Failure(MissingOnetimeKey)
      else
        Lift(X3dh.ResponderSecret(
          device, ephemeral, store.deviceSecret, KeyIn(store.signedPriv),
          if onetime.Some? then Some(KeyIn(store.onetime[onetime.value])) else None))
  }

  function CreateRatchet(b: Bundle, store: KeyStore, unset: int): Result<State, Error> {
    match SharedSecret(b, store)
    case Failure(e) => Failure(e)
    case Success(secret) =>
      Success(
        if b.Sending? then
          Initial(false, secret, b.ephemeralPublic, b.ephemeralPriv[..KEY_LENGTH], b.theirSignedPublic, unset)
        else
          Initial(true, secret, store.signedPublic, store.signedPriv, b.theirEphemeralPublic, unset))
  }

  /** The seeds behind a handshake between two honest devices; the prekey in the bundle is still the responder's. */
  datatype Handshake = Handshake(
    initiator: nat, responder: nat, ephemeral: Seed, signed: Seed, onetime: Option<Seed>)

  ghost predicate Holds(b: Buffer, seed: Seed) {
    KeyIn(b) == Secret(seed)
  }

  ghost predicate InitiatorSide(h: Handshake, b: Bundle, store: KeyStore) {
    && b.Sending? && store.deviceSecret == EdSecret(h.initiator)
    && b.ephemeralPublic == Public(h.ephemeral) && Holds(b.ephemeralPriv, h.ephemeral)
    && b.theirDevicePublic == EdPublic(h.responder) && b.theirSignedPublic == Public(h.signed)
    && b.theirOnetimePublic == X3dh.Pairs(h.onetime).0
    && b.theirSignature == Signature(h.responder, Public(h.signed))
  }

  ghost predicate ResponderSide(h: Handshake, b: Bundle, store: KeyStore) {
    && b.Receiving? && store.deviceSecret == EdSecret(h.responder)
    && store.signedPublic == Public(h.signed) && Holds(store.signedPriv, h.signed)
    && b.theirDevicePublic == EdPublic(h.initiator) && b.theirEphemeralPublic == Public(h.ephemeral)
    && b.myOnetimePublic == X3dh.Pairs(h.onetime).0
    && (h.onetime.Some? ==>
          Public(h.onetime.value) in store.onetime && Holds(store.onetime[Public(h.onetime.value)], h.onetime.value))
  }

  /** For every matching pair of bundles, with or without a one-time key, both ends agree on the secret and build
      mirrored ratchets: equal roots, and each one's send chain is the other's receive chain. */
  lemma MirroredHandshake(h: Handshake, sb: Bundle, sender: KeyStore, rb: Bundle, receiver: KeyStore, u: int, v: int)
    requires InitiatorSide(h, sb, sender) && ResponderSide(h, rb, receiver)
    ensures SharedSecret(sb, sender).Success? && SharedSecret(sb, sender) == SharedSecret(rb, receiver)
    ensures var a, b := CreateRatchet(sb, sender, u), CreateRatchet(rb, receiver, v);
      && a.Success? && b.Success? && Matched(a.value, b.value)
      && a.value.rootKey == b.value.rootKey
      && a.value.sendChain == b.value.receiveChain && a.value.receiveChain == b.value.sendChain
  {
    MirroredSecrets(h, sb, sender, rb, receiver);
    MirroredStarts(h, sb, sender, rb, receiver, SharedSecret(sb, sender).value, u, v);
    hide InitiatorSide, ResponderSide, SharedSecret, Initial, Matched;
    MatchedChains(CreateRatchet(sb, sender, u).value, CreateRatchet(rb, receiver, v).value);
  }

  lemma MirroredSecrets(h: Handshake, sb: Bundle, sender: KeyStore, rb: Bundle, receiver: KeyStore)
    requires InitiatorSide(h, sb, sender) && ResponderSide(h, rb, receiver)
    ensures SharedSecret(sb, sender).Success? && SharedSecret(sb, sender) == SharedSecret(rb, receiver)
  {
    hide X3dh.InitiatorSecret, X3dh.ResponderSecret;
    X3dh.SecretsAgree(h.initiator, h.ephemeral, h.responder, h.signed, h.onetime, h.onetime);
  }

  lemma MirroredStarts(
      h: Handshake, sb: Bundle, sender: KeyStore, rb: Bundle, receiver: KeyStore, secret: Term, u: int, v: int)
    requires InitiatorSide(h, sb, sender) && ResponderSide(h, rb, receiver)
    ensures Matched(
      Initial(false, secret, sb.ephemeralPublic, sb.ephemeralPriv[..KEY_LENGTH], sb.theirSignedPublic, u),
      Initial(true, secret, receiver.signedPublic, receiver.signedPriv, rb.theirEphemeralPublic, v))
  {
    assert sb.ephemeralPriv[..KEY_LENGTH][..KEY_LENGTH] == sb.ephemeralPriv[..KEY_LENGTH];
  }

  /** From matching bundles to message keys: whatever the network does with the headers, each one gives its receiver the
      issued key the first time it arrives, and throws every other time. */
  lemma HandshakeToKeys(
      h: Handshake, sb: Bundle, sender: KeyStore, rb: Bundle, receiver: KeyStore, u: int, v: int, es: seq<Event>)
    requires InitiatorSide(h, sb, sender) && ResponderSide(h, rb, receiver)
    ensures var a, b := CreateRatchet(sb, sender, u), CreateRatchet(rb, receiver, v);
      && a.Success? && b.Success?
      && var p := Run(
           Pair(StartParty(EdPublic(h.initiator), a.value), StartParty(EdPublic(h.responder), b.value)), es);
         Agreed(p.a, p.b) && Agreed(p.b, p.a)
  {
    hide CreateRatchet, SharedSecret, InitiatorSide, ResponderSide, Matched;
    MirroredHandshake(h, sb, sender, rb, receiver, u, v);
    var a, b := CreateRatchet(sb, sender, u).value, CreateRatchet(rb, receiver, v).value;
    StartIsHonest(a, b, EdPublic(h.initiator), EdPublic(h.responder));
    WholeRunAgreement(Pair(StartParty(EdPublic(h.initiator), a), StartParty(EdPublic(h.responder), b)), es);
  }

  /** The two ends when the server has no one-time key left: the initiator is handed 32 zero bytes for it. */
  ghost predicate WithoutOnetime(h: Handshake, b: Bundle, store: KeyStore) {
    && h.onetime == None && b.Sending? && b.theirOnetimePublic == Some(ZeroKey())
    && InitiatorSide(h, b.(theirOnetimePublic := None), store)
  }

  /** Such a bundle is of no use: DH4 fails, while the same bundle without the key would have made a session. A
      responder who is named that key does not find it either. */
  lemma NoOnetimeKeyNoSession(
      h: Handshake, sb: Bundle, sender: KeyStore, rb: Bundle, receiver: KeyStore, u: int, v: int)
    requires WithoutOnetime(h, sb, sender) && ResponderSide(h, rb, receiver) && ZeroKey() !in receiver.onetime
    ensures CreateRatchet(sb, sender, u) == Failure(Agreement(X3dh.Dh4Failed))
    ensures CreateRatchet(sb.(theirOnetimePublic := None), sender, u).Success?
    ensures CreateRatchet(rb.(myOnetimePublic := Some(ZeroKey())), receiver, v) == Failure(MissingOnetimeKey)
  {
    MirroredHandshake(h, sb.(theirOnetimePublic := None), sender, rb, receiver, u, v);
  }

  // ---- Which bundles are refused ----

  /** The prekey of a fetched bundle is signed by the device the bundle is for. */
  predicate SignedByDevice(b: Bundle)
    requires b.Sending?
  {
    b.theirDevicePublic.EdPublic? && b.theirSignature == Signature(b.theirDevicePublic.ed, b.theirSignedPublic)
  }

  /** A fetched bundle is refused as forged exactly when its device did not sign its prekey, and a handshake for want of
      a one-time key exactly when it names one that is not kept; everything else is up to the agreement. */
  lemma BundleErrors(b: Bundle, store: KeyStore, unset: int)
    ensures CreateRatchet(b, store, unset) == Failure(InvalidSignature) <==> b.Sending? && !SignedByDevice(b)
    ensures CreateRatchet(b, store, unset) == Failure(MissingOnetimeKey) <==>
      b.Receiving? && b.myOnetimePublic.Some? && b.myOnetimePublic.value !in store.onetime
    ensures CreateRatchet(b, store, unset) == Failure(Agreement(X3dh.BadPrivateIdentity)) <==>
      && !store.deviceSecret.EdSecret?
      && if b.Sending? then SignedByDevice(b)
         else b.theirDevicePublic.EdPublic? && (b.myOnetimePublic.Some? ==> b.myOnetimePublic.value in store.onetime)
    ensures CreateRatchet(b, store, unset) == Failure(Agreement(X3dh.BadPublicIdentity)) <==>
      && b.Receiving? && !b.theirDevicePublic.EdPublic?
      && (b.myOnetimePublic.Some? ==> b.myOnetimePublic.value in store.onetime)
    ensures CreateRatchet(b, store, unset) == Failure(Agreement(X3dh.Dh4Failed)) <==>
      && b.Sending? && SignedByDevice(b) && store.deviceSecret.EdSecret?
      && b.theirOnetimePublic == Some(Raw(seq(32, _ => Lit(0))))
  {
    hide X3dh.InitiatorSecret, X3dh.ResponderSecret, Initial;
    match b
    case Sending(_, ephemeral, device, signed, onetime, _) =>
      X3dh.AgreementFails(store.deviceSecret, KeyIn(ephemeral), device, signed, onetime);
    case Receiving(device, ephemeral, onetime) =>
      X3dh.AgreementFails(
        store.deviceSecret, KeyIn(store.signedPriv), device, ephemeral,
        if onetime.Some? && onetime.value in store.onetime then Some(KeyIn(store.onetime[onetime.value])) else None);
  }

  // ---- The keys of a handshake ----

  /** The n-th key of each end of a handshake, from the seeds: only the ephemeral key and the signed prekey enter. */
  lemma HandshakeKeys(
      h: Handshake, sb: Bundle, sender: KeyStore, rb: Bundle, receiver: KeyStore, u: int, v: int, n: nat)
    requires InitiatorSide(h, sb, sender) && ResponderSide(h, rb, receiver)
    ensures var a, b := CreateRatchet(sb, sender, u), CreateRatchet(rb, receiver, v);
      var hashed := Hash(Bytes(SharedBy(h.ephemeral, h.signed), 32));
      && a.Success? && b.Success?
      && SentKey(KeySchedule.AfterSends(a.value, n)) == KeySchedule.NthKey(Kdf(0, DRXsend1, hashed), n)
      && SentKey(KeySchedule.AfterSends(b.value, n)) == KeySchedule.NthKey(Kdf(1, DRXrecv1, hashed), n)
  {
    MirroredSecrets(h, sb, sender, rb, receiver);
    var secret := SharedSecret(sb, sender).value;
    DhIsShared(h.ephemeral, h.signed);
    assert sb.ephemeralPriv[..KEY_LENGTH][..32] == sb.ephemeralPriv[..32];
    KeySchedule.NewSessionSends(false, secret, h.ephemeral, sb.ephemeralPriv[..KEY_LENGTH], h.signed, u, n);
    KeySchedule.NewSessionSends(true, secret, h.signed, receiver.signedPriv, h.ephemeral, v, n);
    hide Initial, SharedSecret, KeySchedule.AfterSends;
  }
}
