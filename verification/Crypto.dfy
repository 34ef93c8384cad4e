/** Symbolic cryptography: every primitive is a constructor of a free term algebra, and memory
    is a sequence of octets that are either literal values or named parts of a term. */
module Crypto {
  import opened Wrappers

  /** The eight-byte contexts given to crypto_kdf ("DHRatchet" is cut to its first eight bytes). */
  datatype Context = DRXsend1 | DRXrecv1 | DRXroot1 | DHRatche | DRSndKey

  /** An X25519 scalar is drawn directly or converted from an Ed25519 key. */
  datatype Seed = Box(n: nat) | FromEd(n: nat)

  datatype Octet = Lit(value: int) | Part(of: Term, at: nat)

  datatype Term =
    | Secret(seed: Seed)
    | Public(seed: Seed)
    | EdSecret(ed: nat)
    | EdPublic(ed: nat)
    | Shared(low: Seed, high: Seed)
    | Product(scalar: Term, point: Term)
    | Hash(input: seq<Octet>)
    | Kdf(id: nat, context: Context, key: Term)
    | Random(n: nat)
    | Pwhash(password: string, salt: Term)
    | Signature(signer: nat, message: Term)
    | Aead(aeadKey: Term, nonce: Term, plain: seq<Octet>)
    | Raw(octets: seq<Octet>)

  type Octets = seq<Octet>

  /** The first n bytes of the encoding of a term. */
  function Bytes(t: Term, n: nat): (o: seq<Octet>)
    ensures |o| == n
    ensures forall i | 0 <= i < n :: o[i] == Part(t, i)
  {
    seq(n, (i: nat) => Part(t, i))
  }

  /** The value held by a buffer: the term it spells, if it spells one. */
  function Word(o: seq<Octet>): Term {
    if |o| > 0 && o[0].Part? && (forall i | 0 <= i < |o| :: o[i] == Part(o[0].of, i)) then o[0].of
    else Raw(o)
  }

  lemma WordOfBytes(t: Term, n: nat)
    requires n > 0
    ensures Word(Bytes(t, n)) == t
  {
    assert Bytes(t, n)[0] == Part(t, 0);
  }

  function Zeros(n: nat): (o: seq<Octet>)
    ensures |o| == n
  {
    seq(n, i => Lit(0))
  }

  predicate Before(a: Seed, b: Seed) {
    match (a, b)
    case (Box(x), Box(y)) => x <= y
    case (FromEd(x), FromEd(y)) => x <= y
    case (Box(_), FromEd(_)) => true
    case (FromEd(_), Box(_)) => false
  }

  /** crypto_scalarmult: the secret shared by two keypairs is an unordered pair of seeds. */
  function Dh(scalar: Term, point: Term): Term {
    if scalar.Secret? && point.Public? then
      if Before(scalar.seed, point.seed) then Shared(scalar.seed, point.seed) else Shared(point.seed, scalar.seed)
    else
      Product(scalar, point)
  }

  /** The secret of two keypairs. */
  function SharedBy(a: Seed, b: Seed): Term {
    if Before(a, b) then Shared(a, b) else Shared(b, a)
  }

  lemma DhIsShared(a: Seed, b: Seed)
    ensures Dh(Secret(a), Public(b)) == SharedBy(a, b) == SharedBy(b, a)
  {
  }

  /** It determines the two keypairs. */
  lemma SharedDetermines(a: Seed, b: Seed, c: Seed, d: Seed)
    ensures SharedBy(a, b) == SharedBy(c, d) <==> (a == c && b == d) || (a == d && b == c)
  {
  }

  lemma DhCommutes(a: Seed, b: Seed)
    ensures Dh(Secret(a), Public(b)) == Dh(Secret(b), Public(a))
  {
  }

  /** A key of 32 zero bytes, which crypto_scalarmult refuses, since all it gives is zero. */
  function ZeroKey(): Term {
    Raw(Zeros(KEY_LENGTH))
  }

  function ToCurveSecret(t: Term): Option<Term> {
    if t.EdSecret? then Some(Secret(FromEd(t.ed))) else None
  }

  function ToCurvePublic(t: Term): Option<Term> {
    if t.EdPublic? then Some(Public(FromEd(t.ed))) else None
  }

  const MAC_LENGTH: nat := 16
  const NONCE_LENGTH: nat := 24
  const KEY_LENGTH: nat := 32

  /** XChaCha20-Poly1305 with no associated data. */
  function Seal(key: Term, nonce: Term, plain: seq<Octet>): seq<Octet> {
    Bytes(Aead(key, nonce, plain), |plain| + MAC_LENGTH)
  }

  function Open(key: Term, nonce: Term, cipher: seq<Octet>): Option<seq<Octet>> {
    var t := Word(cipher);
    if t.Aead? && t.aeadKey == key && t.nonce == nonce && |cipher| == |t.plain| + MAC_LENGTH then Some(t.plain)
    else None
  }

  lemma OpenSeal(key: Term, nonce: Term, plain: seq<Octet>, key': Term, nonce': Term)
    ensures Open(key', nonce', Seal(key, nonce, plain))
         == if key' == key && nonce' == nonce then Some(plain) else None
  {
    WordOfBytes(Aead(key, nonce, plain), |plain| + MAC_LENGTH);
  }

  /** Only what was sealed under the key and nonce opens under them. */
  lemma OpensExactly(key: Term, nonce: Term, cipher: seq<Octet>, plain: seq<Octet>)
    ensures Open(key, nonce, cipher) == Some(plain) <==> cipher == Bytes(Aead(key, nonce, plain), |plain| + 16)
  {
    OpenSeal(key, nonce, plain, key, nonce);
    if Open(key, nonce, cipher) == Some(plain) {
      assert cipher[0] == Part(Aead(key, nonce, plain), 0);
    }
  }
}
