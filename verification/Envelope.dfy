/** The layers a file travels in: the file under a file key, the file key under a key-encryption key that is sent to
    each device, and the framing all of them share. */
module Envelope {
  import opened Wrappers
  import opened Crypto
  import Buffers

  // ---- Framing: a fresh nonce, then the ciphertext ----

  datatype Error = NonceMissing | CipherTooShort | NotAuthentic

  function Sealed(plain: Octets, key: Term, nonce: Term): Octets {
    Bytes(nonce, NONCE_LENGTH) + Seal(key, nonce, plain)
  }

  function Unsealed(data: Octets, key: Term): Result<Octets, Error> {
    if |data| < NONCE_LENGTH then Failure(NonceMissing)
    else if |data| < NONCE_LENGTH + MAC_LENGTH then Failure(CipherTooShort)
    else
      match Crypto.Open(key, Word(data[..NONCE_LENGTH]), data[NONCE_LENGTH..])
      case None => Failure(NotAuthentic)
      case Some(plain) => Success(plain)
  }

  /** The frame of a plaintext under a key, for some nonce. */
  ghost predicate IsSealed(data: Octets, plain: Octets, key: Term) {
    exists nonce :: data == Sealed(plain, key, nonce)
  }

  method EncryptMessageGivenKey(message: Octets, key: Term) returns (result: Octets)
    ensures IsSealed(result, message, key)
  {
    var nonce: Term := *;
    var ciphertext := Seal(key, nonce, message);
    var buffer := new Octet[NONCE_LENGTH + |ciphertext|];
    Buffers.Copy(buffer, 0, Bytes(nonce, NONCE_LENGTH));
    Buffers.Copy(buffer, NONCE_LENGTH, ciphertext);
    result := buffer[..];
    IsSealedUnder(result, message, key, nonce);
  }

  lemma IsSealedUnder(data: Octets, plain: Octets, key: Term, nonce: Term)
    requires data == Sealed(plain, key, nonce)
    ensures IsSealed(data, plain, key)
  {
  }

  method DecryptMessageGivenKey(data: Octets, key: Term) returns (message: Result<Octets, Error>)
    ensures message == Unsealed(data, key)
  {
    if |data| < NONCE_LENGTH {
      return Failure(NonceMissing);
    }
    var nonce := new Octet[NONCE_LENGTH];
    Buffers.Copy(nonce, 0, data[..NONCE_LENGTH]);
    assert nonce[..] == data[..NONCE_LENGTH];
    var ciphertext := data[NONCE_LENGTH..];
    if |ciphertext| < MAC_LENGTH {
      return Failure(CipherTooShort);
    }
    var plain := Crypto.Open(key, Word(nonce[..]), ciphertext);
    if plain.None? {
      return Failure(NotAuthentic);
    }
    return Success(plain.value);
  }

  /** A frame opens under the key that sealed it and under no other. */
  lemma SealedOpens(data: Octets, plain: Octets, key: Term, key': Term)
    requires IsSealed(data, plain, key)
    ensures Unsealed(data, key') == if key' == key then Success(plain) else Failure(NotAuthentic)
  {
    var nonce :| data == Sealed(plain, key, nonce);
    assert data[..NONCE_LENGTH] == Bytes(nonce, NONCE_LENGTH) && data[NONCE_LENGTH..] == Seal(key, nonce, plain);
    WordOfBytes(nonce, NONCE_LENGTH);
    OpenSeal(key, nonce, plain, key', nonce);
  }

  /** Only what was sealed under the key opens under it. */
  lemma OnlySealedOpens(data: Octets, key: Term, plain: Octets)
    ensures Unsealed(data, key) == Success(plain) <==>
      |data| == NONCE_LENGTH + |plain| + MAC_LENGTH
      && data[NONCE_LENGTH..] == Seal(key, Word(data[..NONCE_LENGTH]), plain)
  {
    if NONCE_LENGTH + MAC_LENGTH <= |data| {
      OpensExactly(key, Word(data[..NONCE_LENGTH]), data[NONCE_LENGTH..], plain);
      hide Crypto.Open, Word;
    }
  }

  /** How data fails to open: by its length, or because it is not a nonce and what the key seals under that nonce. */
  lemma UnsealedFails(data: Octets, key: Term)
    ensures Unsealed(data, key) == Failure(NonceMissing) <==> |data| < 24
    ensures Unsealed(data, key) == Failure(CipherTooShort) <==> 24 <= |data| < 40
    ensures Unsealed(data, key) == Failure(NotAuthentic) <==>
      40 <= |data| && forall plain :: data[24..] != Bytes(Aead(key, Word(data[..24]), plain), |plain| + 16)
  {
    hide Crypto.Open, Word;
    if 40 <= |data| {
      var found := Crypto.Open(key, Word(data[..24]), data[24..]);
      forall plain
        ensures found == Some(plain) <==> data[24..] == Bytes(Aead(key, Word(data[..24]), plain), |plain| + 16)
      {
        OpensExactly(key, Word(data[..24]), data[24..], plain);
      }
      assert found.Some? ==> found == Some(found.value);
    }
  }

  // ---- The file identifier in a header: a field of 64 characters ----

  const UUID_FIELD: nat := 64

  /** The characters before the first NUL. */
  function CString(s: string): (c: string)
    ensures |c| <= |s| && c == s[..|c|]
    ensures '\0' !in c && (|c| < |s| ==> s[|c|] == '\0')
  {
    if s == "" || s[0] == '\0' then "" else [s[0]] + CString(s[1..])
  }

  function UuidField(uuid: string): string {
    var c := CString(uuid);
    if |c| < UUID_FIELD then c else c[..UUID_FIELD - 1]
  }

  /** strncpy of all but the last character, and a closing NUL. */
  method StoreUuid(field: array<char>, uuid: string)
    requires field.Length == UUID_FIELD
    modifies field
    ensures CString(field[..]) == UuidField(uuid)
  {
    var i, ended := 0, false;
    while i < UUID_FIELD - 1
      invariant 0 <= i <= UUID_FIELD - 1
      invariant ended <==> |CString(uuid)| < i
      invariant forall j | 0 <= j < i :: field[j] == if j < |CString(uuid)| then CString(uuid)[j] else '\0'
    {
      if !ended && (i == |uuid| || uuid[i] == '\0') {
        ended := true;
      }
      field[i] := if ended then '\0' else uuid[i];
      i := i + 1;
    }
    field[UUID_FIELD - 1] := '\0';
    CStringIs(field[..], UuidField(uuid));
  }

  lemma {:induction false} CStringIs(s: string, c: string)
    requires c <= s && '\0' !in c && |c| < |s| && s[|c|] == '\0'
    ensures CString(s) == c
    decreases |c|
  {
    if c != "" {
      CStringIs(s[1..], c[1..]);
    }
  }

  /** The identifier arrives as it was exactly when it is shorter than the field and has no NUL. */
  lemma UuidSurvives(uuid: string)
    ensures UuidField(uuid) == uuid <==> |uuid| < UUID_FIELD && '\0' !in uuid
  {
    if '\0' !in uuid {
      assert CString(uuid) == uuid;
    }
  }

  /** The field holds the identifier up to its end, its first NUL or its 63rd character. */
  lemma FieldHolds(uuid: string, n: nat)
    requires n <= |uuid| && n <= 63 && '\0' !in uuid[..n] && (n == |uuid| || n == 63 || uuid[n] == '\0')
    ensures UuidField(uuid) == uuid[..n]
  {
    var c := CString(uuid);
    if n < |c| {
      assert uuid[n] in c;
    }
  }

  // ---- Files at the server ----

  datatype StoredFile = StoredFile(data: Octets, metadata: Octets, fileKey: Octets)

  /** Some upload of this file under this key-encryption key. */
  ghost predicate IsUpload(stored: StoredFile, file: Octets, metadata: Octets, fKek: Term) {
    exists fileKey :: IsUploadUnder(stored, file, metadata, fKek, fileKey)
  }

  ghost predicate IsUploadUnder(stored: StoredFile, file: Octets, metadata: Octets, fKek: Term, fileKey: Term) {
    && IsSealed(stored.data, file, fileKey) && IsSealed(stored.metadata, metadata, fileKey)
    && IsSealed(stored.fileKey, Bytes(fileKey, KEY_LENGTH), fKek)
  }

  method UploadFile(file: Octets, metadata: Octets, fKek: Term) returns (stored: StoredFile)
    ensures IsUpload(stored, file, metadata, fKek)
  {
    var fileKey: Term := *;
    var encryptedMetadata := EncryptMessageGivenKey(metadata, fileKey);
    var encryptedData := EncryptMessageGivenKey(file, fileKey);
    var encryptedKey := EncryptMessageGivenKey(Bytes(fileKey, KEY_LENGTH), fKek);
    stored := StoredFile(encryptedData, encryptedMetadata, encryptedKey);
    HasFileKey(stored, file, metadata, fKek, fileKey);
  }

  lemma HasFileKey(stored: StoredFile, file: Octets, metadata: Octets, fKek: Term, fileKey: Term)
    requires IsUploadUnder(stored, file, metadata, fKek, fileKey)
    ensures IsUpload(stored, file, metadata, fKek)
  {
  }

  datatype DownloadError = NoAccess | KeyMissing | FileMissing

  /** download_file, given what the local database and the server return; None stands for an exception. */
  function Downloaded(kept: Option<Octets>, stored: Option<StoredFile>): Result<Octets, DownloadError> {
    if kept.None? then Failure(NoAccess)
    else if kept.value == [] then Failure(KeyMissing)
    else if stored.None? then Failure(NoAccess)
    else
      match Unsealed(stored.value.fileKey, Word(kept.value))
      case Failure(_) => Failure(NoAccess)
      case Success(fileKey) =>
        if stored.value.data == [] then Failure(FileMissing)
        else
          match Unsealed(stored.value.data, Word(fileKey))
          case Failure(_) => Failure(NoAccess)
          case Success(file) => if file == [] then Failure(NoAccess) else Success(file)
  }

  method DownloadFile(kept: Option<Octets>, stored: Option<StoredFile>) returns (file: Result<Octets, DownloadError>)
    ensures file == Downloaded(kept, stored)
  {
    if kept.None? {
      return Failure(NoAccess);
    }
    if kept.value == [] {
      return Failure(KeyMissing);
    }
    if stored.None? {
      return Failure(NoAccess);
    }
    var fileKey := DecryptMessageGivenKey(stored.value.fileKey, Word(kept.value));
    if fileKey.Failure? {
      return Failure(NoAccess);
    }
    if stored.value.data == [] {
      return Failure(FileMissing);
    }
    var plain := DecryptMessageGivenKey(stored.value.data, Word(fileKey.value));
    if plain.Failure? || plain.value == [] {
      return Failure(NoAccess);
    }
    return Success(plain.value);
  }

  /** Whoever kept the key-encryption key gets the file back, and nobody else; an empty file is refused to everybody. */
  lemma UploadDownloads(stored: StoredFile, file: Octets, metadata: Octets, fKek: Term, kept: Term)
    requires IsUpload(stored, file, metadata, fKek)
    ensures Downloaded(Some(Bytes(kept, KEY_LENGTH)), Some(stored))
         == if kept == fKek && file != [] then Success(file) else Failure(NoAccess)
  {
    var fileKey :| IsUploadUnder(stored, file, metadata, fKek, fileKey);
    WordOfBytes(kept, KEY_LENGTH);
    WordOfBytes(fileKey, KEY_LENGTH);
    SealedOpens(stored.fileKey, Bytes(fileKey, KEY_LENGTH), fKek, kept);
    SealedOpens(stored.data, file, fileKey, fileKey);
  }

  /** How a download ends, for anything the database and the server may return: each answer from what opens under the
      key that was kept and under the key found there. */
  lemma DownloadAnswers(kept: Option<Octets>, stored: Option<StoredFile>)
    ensures Downloaded(kept, stored) == Failure(KeyMissing) <==> kept == Some([])
    ensures Downloaded(kept, stored) == Failure(FileMissing) <==>
      && kept.Some? && kept.value != [] && stored.Some? && stored.value.data == []
      && exists fileKey :: Unsealed(stored.value.fileKey, Word(kept.value)) == Success(fileKey)
    ensures forall file :: Downloaded(kept, stored) == Success(file) <==>
      && file != [] && kept.Some? && kept.value != [] && stored.Some?
      && exists fileKey :: Unsealed(stored.value.fileKey, Word(kept.value)) == Success(fileKey)
                           && Unsealed(stored.value.data, Word(fileKey)) == Success(file)
  {
  }

  // ---- The metadata of a file ----

  /** get_file_metadata for one file, up to parsing it; None stands for a file that is skipped. */
  function ShownMetadata(kept: Option<Octets>, stored: StoredFile): Option<Octets> {
    if kept.None? || kept.value == [] then None
    else
      match Unsealed(stored.fileKey, Word(kept.value))
      case Failure(_) => None
      case Success(fileKey) =>
        match Unsealed(stored.metadata, Word(fileKey))
        case Failure(_) => None
        case Success(metadata) => if metadata == [] then None else Some(metadata)
  }

  method GetFileMetadata(kept: Option<Octets>, stored: StoredFile) returns (metadata: Option<Octets>)
    ensures metadata == ShownMetadata(kept, stored)
  {
    if kept.None? || kept.value == [] {
      return None;
    }
    var fileKey := DecryptMessageGivenKey(stored.fileKey, Word(kept.value));
    if fileKey.Failure? {
      return None;
    }
    var plain := DecryptMessageGivenKey(stored.metadata, Word(fileKey.value));
    if plain.Failure? || plain.value == [] {
      return None;
    }
    return Some(plain.value);
  }

  /** Whoever kept the key-encryption key is shown the metadata that was uploaded, and nobody else is. */
  lemma UploadShowsMetadata(stored: StoredFile, file: Octets, metadata: Octets, fKek: Term, kept: Term)
    requires IsUpload(stored, file, metadata, fKek)
    ensures ShownMetadata(Some(Bytes(kept, KEY_LENGTH)), stored)
         == if kept == fKek && metadata != [] then Some(metadata) else None
  {
    var fileKey :| IsUploadUnder(stored, file, metadata, fKek, fileKey);
    WordOfBytes(kept, KEY_LENGTH);
    WordOfBytes(fileKey, KEY_LENGTH);
    SealedOpens(stored.fileKey, Bytes(fileKey, KEY_LENGTH), fKek, kept);
    SealedOpens(stored.metadata, metadata, fileKey, fileKey);
  }
}
