/**
 * The persisted record types of the store (`Meta`, `Entry`), the error kinds the
 * commands report, and the record that `add` builds for a new username.
 *
 * The cryptographic and encoding steps are calls into libraries (base64, Argon2,
 * AES-256-GCM) and into `str::as_bytes`; they are not defined here but passed in as
 * the functions of a `Primitives` value, so every property below holds whatever
 * those libraries compute.
 */
module Records {
  import opened Wrappers

  type byte = b: int | 0 <= b < 256

  /** The 32-byte AES-256 key that Argon2 writes into `aes_encryption_key`. */
  type Key = k: seq<byte> | |k| == 32 witness seq(32, _ => 0)

  /** The 12-byte AES-GCM nonce that `OsRng` fills. */
  type Nonce = n: seq<byte> | |n| == 12 witness seq(12, _ => 0)

  /** The library functions `add` calls. A `None` result is the library's error. */
  datatype Primitives = Primitives(
    utf8: string -> seq<byte>,                        // str::as_bytes
    encodeB64: seq<byte> -> string,                   // base64 STANDARD encode
    decodeB64: string -> Option<seq<byte>>,           // base64 STANDARD decode
    argon2: (seq<byte>, seq<byte>) -> Option<Key>,    // Argon2::default().hash_password_into(password, salt, key)
    seal: (Key, Nonce, seq<byte>) -> Option<seq<byte>> // Aes256Gcm::encrypt(nonce, plaintext) under key
  )

  /** Store metadata: the base64 text of the store's random salt. */
  datatype Meta = Meta(salt: string)

  /**
   * One stored credential. `password` is the plaintext when `encrypted` is false and
   * the base64 ciphertext when it is true; `nonce` is the base64 nonce of that ciphertext.
   */
  datatype Entry = Entry(username: string, password: string, encrypted: bool, nonce: Option<string>)

  /** The error messages the commands end with. */
  datatype Error =
    | UsernameExists     // "Username already exists"
    | UsernameNotFound   // "Username not found"
    | MalformedStore     // serde_json could not read the existing config file
    | SaltDecode         // meta.salt is not valid base64
    | KeyDerivation      // Argon2 rejected the master password or the salt
    | Encryption         // AES-256-GCM refused to encrypt

  /** The record invariant: a nonce is stored exactly for the encrypted entries. */
  predicate WellFormed(e: Entry)
  {
    e.nonce.Some? <==> e.encrypted
  }

  /** Every entry is well formed and carries its own map key as its `username`. */
  predicate ValidEntries(entries: map<string, Entry>)
  {
    forall k :: k in entries ==> entries[k].username == k && WellFormed(entries[k])
  }

  /**
   * The encrypted branch's pipeline: decode the store salt, derive the key from the
   * master password with Argon2, and encrypt the password under that key and the nonce.
   */
  function SealSecret(p: Primitives, password: string, salt: string, master: string, nonce: Nonce): Result<seq<byte>, Error>
  {
    match p.decodeB64(salt)
    case None => Err(SaltDecode)
    case Some(saltBytes) =>
      match p.argon2(p.utf8(master), saltBytes)
      case None => Err(KeyDerivation)
      case Some(key) =>
        match p.seal(key, nonce, p.utf8(password))
        case None => Err(Encryption)
        case Some(ciphertext) => Ok(ciphertext)
  }

  /**
   * The record `add` inserts for `username`: the password as given when not encrypted,
   * otherwise the base64 ciphertext and base64 nonce. `salt` is the store's `meta.salt`,
   * `master` the prompted master password, `nonce` the freshly drawn random nonce; the
   * last two are used only by the encrypted branch.
   */
  function NewEntry(p: Primitives, username: string, password: string, encrypted: bool,
                    salt: string, master: string, nonce: Nonce): (r: Result<Entry, Error>)
    ensures r.Ok? ==> r.value.username == username && r.value.encrypted == encrypted && WellFormed(r.value)
    ensures !encrypted ==> r.Ok? && r.value.password == password && r.value.nonce == None
    ensures encrypted ==> (r.Ok? <==> SealSecret(p, password, salt, master, nonce).Ok?)
    ensures encrypted && r.Ok? ==>
      r.value.password == p.encodeB64(SealSecret(p, password, salt, master, nonce).value) &&
      r.value.nonce == Some(p.encodeB64(nonce))
    ensures r.Err? ==> encrypted && r.error in {SaltDecode, KeyDerivation, Encryption}
  {
    if encrypted then
      match SealSecret(p, password, salt, master, nonce)
      case Ok(ciphertext) => Ok(Entry(username, p.encodeB64(ciphertext), true, Some(p.encodeB64(nonce))))
      case Err(e) => Err(e)
    else
      Ok(Entry(username, password, false, None))
  }

  /**
   * Reading an encrypted record back: derive the key from the master password and the
   * salt again, decode nonce and ciphertext, and open them with the AEAD `open`.
   * This source revision never decrypts (`show` prints the stored field); the function
   * is here to state what the stored record is good for.
   */
  function Reveal(p: Primitives, open: (Key, Nonce, seq<byte>) -> Option<seq<byte>>,
                  e: Entry, salt: string, master: string): Option<seq<byte>>
  {
    if !e.encrypted || e.nonce.None? then None
    else
      match (p.decodeB64(salt), p.decodeB64(e.nonce.value), p.decodeB64(e.password))
      case (Some(saltBytes), Some(n), Some(ciphertext)) =>
        if |n| != 12 then None
        else
          (match p.argon2(p.utf8(master), saltBytes)
           case None => None
           case Some(key) => open(key, n, ciphertext))
      case _ => None
  }

  /**
   * An encrypted record written by `add` holds everything needed to recover the
   * password: with the same salt and master password, a base64 decoder that undoes the
   * encoder and an AEAD whose `open` undoes `seal`, `Reveal` returns the password's bytes.
   */
  lemma SealedEntryRecoverable(p: Primitives, open: (Key, Nonce, seq<byte>) -> Option<seq<byte>>,
                               username: string, password: string, salt: string, master: string, nonce: Nonce)
    requires forall b :: p.decodeB64(p.encodeB64(b)) == Some(b)
    requires forall k, n, m :: p.seal(k, n, m).Some? ==> open(k, n, p.seal(k, n, m).value) == Some(m)
    requires NewEntry(p, username, password, true, salt, master, nonce).Ok?
    ensures Reveal(p, open, NewEntry(p, username, password, true, salt, master, nonce).value, salt, master)
            == Some(p.utf8(password))
  {
  }
}
