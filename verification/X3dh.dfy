/** The X3DH secret of both ends of a handshake (sections 3.3 and 3.4 of "The X3DH Key Agreement Protocol"). */
module X3dh {
  import opened Wrappers
  import opened Crypto
  import Buffers

  datatype Error = BadPrivateIdentity | BadPublicIdentity | Dh4Failed

  /** The 128 bytes that are hashed; a missing fourth output is 32 zero bytes. */
  function KeyMaterial(dh1: Term, dh2: Term, dh3: Term, dh4: Option<Term>): (o: seq<Octet>)
    ensures |o| == 128
  {
    Bytes(dh1, KEY_LENGTH) + Bytes(dh2, KEY_LENGTH) + Bytes(dh3, KEY_LENGTH)
    + (if dh4.Some? then Bytes(dh4.value, KEY_LENGTH) else Zeros(KEY_LENGTH))
  }

  function InitiatorSecret(
      myIdentityPrivate: Term, myEphemeralPrivate: Term, theirIdentity: Term, theirSignedPrekey: Term,
      theirOnetimePrekey: Option<Term>): Result<Term, Error>
  {
    var mine := ToCurveSecret(myIdentityPrivate);
    var theirs := ToCurvePublic(theirIdentity);
    if mine.None? then Failure(BadPrivateIdentity)
    else if theirs.None? then Failure(BadPublicIdentity)
    else if theirOnetimePrekey == Some(ZeroKey()) then Failure(Dh4Failed)
    else
      Success(Hash(KeyMaterial(
        Dh(mine.value, theirSignedPrekey),
        Dh(myEphemeralPrivate, theirs.value), Dh(myEphemeralPrivate, theirSignedPrekey),
        if theirOnetimePrekey.Some? then Some(Dh(myEphemeralPrivate, theirOnetimePrekey.value)) else None)))
  }

  function ResponderSecret(
      theirIdentity: Term, theirEphemeral: Term, myIdentityPrivate: Term, mySignedPrivate: Term,
      myOnetimePrivate: Option<Term>): Result<Term, Error>
  {
    var theirs := ToCurvePublic(theirIdentity);
    var mine := ToCurveSecret(myIdentityPrivate);
    if theirs.None? then Failure(BadPublicIdentity)
    else if mine.None? then Failure(BadPrivateIdentity)
    else
      Success(Hash(KeyMaterial(
        Dh(mySignedPrivate, theirs.value), Dh(mine.value, theirEphemeral), Dh(mySignedPrivate, theirEphemeral),
        if myOnetimePrivate.Some? then Some(Dh(myOnetimePrivate.value, theirEphemeral)) else None)))
  }

  // ---- The two procedures over their buffers ----

  method HashedMaterial(dh1: Term, dh2: Term, dh3: Term, dh4: seq<Octet>) returns (secret: Term)
    requires |dh4| == KEY_LENGTH
    ensures secret == Hash(Bytes(dh1, KEY_LENGTH) + Bytes(dh2, KEY_LENGTH) + Bytes(dh3, KEY_LENGTH) + dh4)
  {
    var ikm := new Octet[4 * KEY_LENGTH];
    Buffers.Copy(ikm, 0, Bytes(dh1, KEY_LENGTH));
    Buffers.Copy(ikm, KEY_LENGTH, Bytes(dh2, KEY_LENGTH));
    assert ikm[..2 * KEY_LENGTH] == Bytes(dh1, KEY_LENGTH) + Bytes(dh2, KEY_LENGTH);
    Buffers.Copy(ikm, 2 * KEY_LENGTH, Bytes(dh3, KEY_LENGTH));
    assert ikm[..3 * KEY_LENGTH] == Bytes(dh1, KEY_LENGTH) + Bytes(dh2, KEY_LENGTH) + Bytes(dh3, KEY_LENGTH);
    Buffers.Copy(ikm, 3 * KEY_LENGTH, dh4);
    assert ikm[..] == ikm[..3 * KEY_LENGTH] + dh4;
    secret := Hash(ikm[..]);
  }

  method Initiator(
      myIdentityPrivate: Term, myEphemeralPrivate: Term, theirIdentity: Term, theirSignedPrekey: Term,
      theirOnetimePrekey: Option<Term>) returns (secret: Result<Term, Error>)
    ensures secret
         == InitiatorSecret(myIdentityPrivate, myEphemeralPrivate, theirIdentity, theirSignedPrekey, theirOnetimePrekey)
  {
    var mine := ToCurveSecret(myIdentityPrivate);
    if mine.None? {
      return Failure(BadPrivateIdentity);
    }
    var dh1 := Dh(mine.value, theirSignedPrekey);
    var theirs := ToCurvePublic(theirIdentity);
    if theirs.None? {
      return Failure(BadPublicIdentity);
    }
    var dh2 := Dh(myEphemeralPrivate, theirs.value);
    var dh3 := Dh(myEphemeralPrivate, theirSignedPrekey);
    var dh4 := Zeros(KEY_LENGTH);
    if theirOnetimePrekey.Some? {
      if theirOnetimePrekey.value == ZeroKey() {
        return Failure(Dh4Failed);
      }
      dh4 := Bytes(Dh(myEphemeralPrivate, theirOnetimePrekey.value), KEY_LENGTH);
    }
    var hashed := HashedMaterial(dh1, dh2, dh3, dh4);
    return Success(hashed);
  }

  method Responder(
      theirIdentity: Term, theirEphemeral: Term, myIdentityPrivate: Term, mySignedPrivate: Term,
      myOnetimePrivate: Option<Term>) returns (secret: Result<Term, Error>)
    ensures secret
         == ResponderSecret(theirIdentity, theirEphemeral, myIdentityPrivate, mySignedPrivate, myOnetimePrivate)
  {
    var theirs := ToCurvePublic(theirIdentity);
    if theirs.None? {
      return Failure(BadPublicIdentity);
    }
    var dh1 := Dh(mySignedPrivate, theirs.value);
    var mine := ToCurveSecret(myIdentityPrivate);
    if mine.None? {
      return Failure(BadPrivateIdentity);
    }
    var dh2 := Dh(mine.value, theirEphemeral);
    var dh3 := Dh(mySignedPrivate, theirEphemeral);
    var dh4 := Zeros(KEY_LENGTH);
    if myOnetimePrivate.Some? {
      dh4 := Bytes(Dh(myOnetimePrivate.value, theirEphemeral), KEY_LENGTH);
    }
    var hashed := HashedMaterial(dh1, dh2, dh3, dh4);
    return Success(hashed);
  }

  // ---- Agreement ----

  function Pairs(onetime: Option<Seed>): (Option<Term>, Option<Term>) {
    if onetime.Some? then (Some(Public(onetime.value)), Some(Secret(onetime.value))) else (None, None)
  }

  lemma SharedSeeds(a: Seed, b: Seed, c: Seed)
    requires Dh(Secret(a), Public(b)) == Dh(Secret(a), Public(c))
    ensures b == c
  {
  }

  /** The fourth output of key material can be read back. */
  lemma MaterialDeterminesLast(dh1: Term, dh2: Term, dh3: Term, x: Option<Term>, y: Option<Term>)
    requires KeyMaterial(dh1, dh2, dh3, x) == KeyMaterial(dh1, dh2, dh3, y)
    ensures x == y
  {
    var p, q := KeyMaterial(dh1, dh2, dh3, x)[96], KeyMaterial(dh1, dh2, dh3, y)[96];
    assert p == if x.Some? then Part(x.value, 0) else Lit(0);
    assert q == if y.Some? then Part(y.value, 0) else Lit(0);
  }

  /** Both ends compute the same secret exactly when they use the same one-time prekey, or both none. */
  lemma SecretsAgree(
      initiator: nat, ephemeral: Seed, responder: nat, signed: Seed, used: Option<Seed>, found: Option<Seed>)
    ensures var a :=
        InitiatorSecret(EdSecret(initiator), Secret(ephemeral), EdPublic(responder), Public(signed), Pairs(used).0);
      var b :=
        ResponderSecret(EdPublic(initiator), Public(ephemeral), EdSecret(responder), Secret(signed), Pairs(found).1);
      a.Success? && b.Success? && (a == b <==> used == found)
  {
    DhCommutes(FromEd(initiator), signed);
    DhCommutes(ephemeral, FromEd(responder));
    DhCommutes(ephemeral, signed);
    var dh1, dh2, dh3 := Dh(Secret(FromEd(initiator)), Public(signed)),
                         Dh(Secret(ephemeral), Public(FromEd(responder))), Dh(Secret(ephemeral), Public(signed));
    var x := if used.Some? then Some(Dh(Secret(ephemeral), Public(used.value))) else None;
    var y := if found.Some? then Some(Dh(Secret(found.value), Public(ephemeral))) else None;
    if found.Some? {
      DhCommutes(found.value, ephemeral);
    }
    if KeyMaterial(dh1, dh2, dh3, x) == KeyMaterial(dh1, dh2, dh3, y) {
      MaterialDeterminesLast(dh1, dh2, dh3, x, y);
      if used.Some? {
        SharedSeeds(ephemeral, used.value, found.value);
      }
    }
  }

  // ---- What the secret is made of ----

  /** The material of a handshake between keypairs: the two identities and the prekeys, pair by pair, and 32 zero bytes
      for a one-time key that is not there. */
  function Material(initiator: nat, ephemeral: Seed, responder: nat, signed: Seed, onetime: Option<Seed>): Octets {
    Bytes(SharedBy(FromEd(initiator), signed), 32) + Bytes(SharedBy(ephemeral, FromEd(responder)), 32)
    + Bytes(SharedBy(ephemeral, signed), 32)
    + if onetime.Some? then Bytes(SharedBy(ephemeral, onetime.value), 32) else seq(32, _ => Lit(0))
  }

  lemma InitiatorHashes(initiator: nat, ephemeral: Seed, responder: nat, signed: Seed, onetime: Option<Seed>)
    ensures InitiatorSecret(
              EdSecret(initiator), Secret(ephemeral), EdPublic(responder), Public(signed), Pairs(onetime).0)
         == Success(Hash(Material(initiator, ephemeral, responder, signed, onetime)))
  {
    DhIsShared(FromEd(initiator), signed);
    DhIsShared(ephemeral, FromEd(responder));
    DhIsShared(ephemeral, signed);
    if onetime.Some? {
      DhIsShared(ephemeral, onetime.value);
    }
    assert Zeros(32) == seq(32, _ => Lit(0));
  }

  lemma ResponderHashes(initiator: nat, ephemeral: Seed, responder: nat, signed: Seed, onetime: Option<Seed>)
    ensures ResponderSecret(
              EdPublic(initiator), Public(ephemeral), EdSecret(responder), Secret(signed), Pairs(onetime).1)
         == Success(Hash(Material(initiator, ephemeral, responder, signed, onetime)))
  {
    DhIsShared(FromEd(initiator), signed);
    DhIsShared(ephemeral, FromEd(responder));
    DhIsShared(ephemeral, signed);
    if onetime.Some? {
      DhIsShared(ephemeral, onetime.value);
    }
    assert Zeros(32) == seq(32, _ => Lit(0));
  }

  lemma GroupsApart(a: Octets, b: Octets, c: Octets, d: Octets, w: Octets, x: Octets, y: Octets, z: Octets)
    requires |a| == |b| == |c| == |d| == |w| == |x| == |y| == |z| == 32
    requires a + b + c + d == w + x + y + z
    ensures a == w && b == x && c == y && d == z
  {
    assert a == (a + b + c + d)[..32] && w == (w + x + y + z)[..32];
    assert b == (a + b + c + d)[32..64] && x == (w + x + y + z)[32..64];
    assert c == (a + b + c + d)[64..96] && y == (w + x + y + z)[64..96];
    assert d == (a + b + c + d)[96..] && z == (w + x + y + z)[96..];
  }

  lemma BytesDetermine(t: Term, u: Term)
    requires Bytes(t, 32) == Bytes(u, 32)
    ensures t == u
  {
    assert Bytes(t, 32)[0] == Part(t, 0) && Bytes(u, 32)[0] == Part(u, 0);
  }

  /** Two handshakes between curve keypairs that were drawn as such have the same secret, at either end, exactly when
      both identities, the ephemeral key, the signed prekey and the one-time key are the same. */
  lemma SecretDeterminesHandshake(
      initiator: nat, ephemeral: Seed, responder: nat, signed: Seed, onetime: Option<Seed>,
      initiator': nat, ephemeral': Seed, responder': nat, signed': Seed, onetime': Option<Seed>)
    requires ephemeral.Box? && signed.Box? && (onetime.Some? ==> onetime.value.Box?)
    requires ephemeral'.Box? && signed'.Box? && (onetime'.Some? ==> onetime'.value.Box?)
    ensures var same := initiator == initiator' && ephemeral == ephemeral' && responder == responder'
        && signed == signed' && onetime == onetime';
      var a :=
        InitiatorSecret(EdSecret(initiator), Secret(ephemeral), EdPublic(responder), Public(signed), Pairs(onetime).0);
      && (a == InitiatorSecret(
            EdSecret(initiator'), Secret(ephemeral'), EdPublic(responder'), Public(signed'), Pairs(onetime').0)
          <==> same)
      && (a == ResponderSecret(
            EdPublic(initiator'), Public(ephemeral'), EdSecret(responder'), Secret(signed'), Pairs(onetime').1)
          <==> same)
  {
    InitiatorHashes(initiator, ephemeral, responder, signed, onetime);
    InitiatorHashes(initiator', ephemeral', responder', signed', onetime');
    ResponderHashes(initiator', ephemeral', responder', signed', onetime');
    hide InitiatorSecret, ResponderSecret;
    if Material(initiator, ephemeral, responder, signed, onetime)
        == Material(initiator', ephemeral', responder', signed', onetime') {
      MaterialDetermines(
        initiator, ephemeral, responder, signed, onetime, initiator', ephemeral', responder', signed', onetime');
    }
  }

  lemma MaterialDetermines(
      initiator: nat, ephemeral: Seed, responder: nat, signed: Seed, onetime: Option<Seed>,
      initiator': nat, ephemeral': Seed, responder': nat, signed': Seed, onetime': Option<Seed>)
    requires ephemeral.Box? && signed.Box? && (onetime.Some? ==> onetime.value.Box?)
    requires ephemeral'.Box? && signed'.Box? && (onetime'.Some? ==> onetime'.value.Box?)
    requires Material(initiator, ephemeral, responder, signed, onetime)
      == Material(initiator', ephemeral', responder', signed', onetime')
    ensures initiator == initiator' && ephemeral == ephemeral' && responder == responder' && signed == signed'
      && onetime == onetime'
  {
    var dh1, dh1' := SharedBy(FromEd(initiator), signed), SharedBy(FromEd(initiator'), signed');
    var dh2, dh2' := SharedBy(ephemeral, FromEd(responder)), SharedBy(ephemeral', FromEd(responder'));
    var dh3, dh3' := SharedBy(ephemeral, signed), SharedBy(ephemeral', signed');
    var last := if onetime.Some? then Bytes(SharedBy(ephemeral, onetime.value), 32) else seq(32, _ => Lit(0));
    var last' := if onetime'.Some? then Bytes(SharedBy(ephemeral', onetime'.value), 32) else seq(32, _ => Lit(0));
    GroupsApart(
      Bytes(dh1, 32), Bytes(dh2, 32), Bytes(dh3, 32), last, Bytes(dh1', 32), Bytes(dh2', 32), Bytes(dh3', 32), last');
    BytesDetermine(dh1, dh1');
    BytesDetermine(dh2, dh2');
    SharedDetermines(FromEd(initiator), signed, FromEd(initiator'), signed');
    SharedDetermines(ephemeral, FromEd(responder), ephemeral', FromEd(responder'));
    assert last[0] == last'[0];
    if onetime.Some? && onetime'.Some? {
      BytesDetermine(SharedBy(ephemeral, onetime.value), SharedBy(ephemeral', onetime'.value));
      SharedDetermines(ephemeral, onetime.value, ephemeral', onetime'.value);
    }
  }

  /** Which agreements fail, and how: the initiator looks at its own key first, the responder at the other's. */
  lemma AgreementFails(identity: Term, own: Term, other: Term, prekey: Term, onetime: Option<Term>)
    ensures var r := InitiatorSecret(identity, own, other, prekey, onetime);
      && (r == Failure(BadPrivateIdentity) <==> !identity.EdSecret?)
      && (r == Failure(BadPublicIdentity) <==> identity.EdSecret? && !other.EdPublic?)
      && (r == Failure(Dh4Failed) <==>
            identity.EdSecret? && other.EdPublic? && onetime == Some(Raw(seq(32, _ => Lit(0)))))
    ensures var r := ResponderSecret(other, prekey, identity, own, onetime);
      && (r == Failure(BadPublicIdentity) <==> !other.EdPublic?)
      && (r == Failure(BadPrivateIdentity) <==> other.EdPublic? && !identity.EdSecret?)
      && r != Failure(Dh4Failed)
  {
    assert Zeros(32) == seq(32, _ => Lit(0));
  }
}
