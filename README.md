# Credential store of `password-manager`, modelled in Dafny

`password-manager` is a command-line password store. Its state is one JSON config
file holding a `Store`: a `Meta` record with the base64 text of a random 32-byte salt,
and a map from username to `Entry { username, password, encrypted, nonce }`. Four
commands act on it: `add` inserts a new entry (plaintext, or encrypted with
AES-256-GCM under a key that Argon2 derives from a prompted master password and the
store's salt), `rm` deletes an entry found by case-insensitive name, `show` prints the
stored password field of such an entry, and `list` prints every username.

This project models that logic from `src/main.rs`:

- `wrappers.dfy` — `Option`, `Result` and `Outcome` for the commands' error channel.
- `text.dfy` — `Lower`, the case folding of the lookups, and `SameName`.
- `records.dfy` — `Meta`, `Entry`, the error kinds, the record invariant
  (`WellFormed`: a nonce is stored exactly when the entry is encrypted) and `NewEntry`,
  the record `add` writes in each of its two branches. The library calls (base64,
  Argon2, AES-256-GCM, `as_bytes`) are the functions of a `Primitives` value supplied by
  the caller, so every property holds for whatever those libraries compute.
- `vault.dfy` — the `ConfigFile` (what `config.json` holds) and the `Store` class with
  its `meta` and `entries` fields: `Load`, `Save`, the HashMap key iteration, the
  case-insensitive `Lookup`, and `Add`, `Rm` (which update `entries` in place and then
  overwrite the file), `Show` and `List` (which only read).
- `commands.dfy` — the four commands as whole runs (load, operate, save) stated over
  the file, and client methods for typical runs: first run, duplicate username,
  case-insensitive lookup, case collision, and `rm` undoing `add`.

HashMap iteration order is not determined by the source; `IterationOrder` visits every
key once in an order the model leaves open, and the lookups take the first match in
that order. So `rm` and `show` act on *some* key whose lowercase form equals the
argument's, and when "Alice" and "alice" are both stored (which `add`, comparing
exactly, allows) either may be chosen.

In this revision of `src/main.rs`, `show` prints the stored `password` field as it is and never decrypts
(for an encrypted entry that is the base64 ciphertext); the master password prompt of
`add` asks once, with no confirmation; and no command reports an authentication error.

## Model

| member | source | states |
|---|---|---|
| Records.NewEntry | src/main.rs:113-160 | the inserted entry's `username` is the given username and its `encrypted` flag the requested one; unencrypted: password stored verbatim with no nonce, never fails; encrypted: succeeds exactly when salt decoding, Argon2 and encryption all succeed, and then stores the base64 ciphertext and `Some` base64 nonce; every result satisfies "nonce present iff encrypted"; errors only in the encrypted branch |
| Records.SealedEntryRecoverable | src/main.rs:142-150 | an encrypted record written by `add` holds the ciphertext and nonce from which the same salt and master password recover the password bytes, given base64 decoding undoes encoding and AEAD opening undoes sealing |
| Vault.FindKey | src/main.rs:174-178 | `find` over keys in iteration order: returns none exactly when no key matches case-insensitively, otherwise a matching key with no matching key before it |
| Vault.Store.InitNewStore | src/main.rs:69-78 | a new store has the given salt and an empty entry map, and satisfies the record invariant |
| Vault.Store.Load | src/main.rs:60-67 | an absent file yields a fresh store with the new salt and no entries, a readable file yields its store, unreadable content yields an error |
| Vault.Store.Save | src/main.rs:163-164 | the file afterwards holds the whole current store |
| Vault.Store.IterationOrder | src/main.rs:224 | the key iteration visits every key of the map exactly once and nothing else |
| Vault.Store.Lookup | src/main.rs:174-178 | the case-insensitive lookup finds a key exactly when some key's lowercase form equals the argument's, and what it finds is such a key |
| Vault.Store.Add | src/main.rs:107-161 | an exact-match duplicate fails with "Username already exists" before any crypto, store and file unchanged; success exactly when the name is new and the record could be built, then exactly that one key is added, every other key and entry unchanged, the count grows by one, the file is rewritten; any failure leaves store and file unchanged; the record invariant is preserved |
| Vault.Store.Rm | src/main.rs:174-187 | succeeds exactly when some key matches case-insensitively, removes that one key, leaves every other key and entry unchanged, shrinks the map by one and rewrites the file; otherwise "Username not found" with store and file unchanged; the record invariant is preserved |
| Vault.Store.Show | src/main.rs:197-207 | reports an entry exactly when some key matches case-insensitively, giving that key and its stored `password` field as is; changes nothing |
| Vault.Store.List | src/main.rs:215-226 | "No entries found." exactly when the map is empty; otherwise every key exactly once |
| Commands.AddCommand | src/main.rs:101-169 | over the file: unreadable content fails with no write; a duplicate fails with no write; otherwise success exactly when the record could be built, a failed build reporting that crypto step's own error, and the file then holds the loaded (or new) store with the one entry added |
| Commands.RmCommand | src/main.rs:171-192 | over the file: success exactly when some key matches case-insensitively, the file then holding the store minus one such key; otherwise "Username not found" and no write |
| Commands.ShowCommand | src/main.rs:194-210 | over the file: always succeeds on readable content, reporting a case-insensitively matching key and its stored password field exactly when one exists |
| Commands.ListCommand | src/main.rs:212-231 | over the file: "No entries found." exactly when the loaded store is empty, otherwise every key exactly once |
| Commands.LifecycleScenario | src/main.rs:60-169 | with no config file, adding "alice"/"hunter2" unencrypted and loading again yields exactly that one plaintext entry under the new salt |
| Commands.DuplicateScenario | src/main.rs:107-110 | a second add of "alice", even encrypted, fails with "Username already exists" and the file keeps the first entry |
| Commands.AliceMatches | src/main.rs:177 | "alice" matches the stored key "Alice" after lowercasing, and nothing else in a store holding only "Alice" |
| Commands.CaseInsensitiveScenario | src/main.rs:171-209 | with "Alice" stored, `show alice` reports the "Alice" entry and `rm alice` removes it, leaving an empty store |
| Commands.AliceVariantsMatch | src/main.rs:202 | "ALICE" matches both "Alice" and "alice" |
| Commands.CollisionScenario | src/main.rs:107-202 | "Alice" and "alice" can both be added, and `show ALICE` then reports one of the two |
| Commands.AddThenRm | src/main.rs:101-192 | when no key matches a name even case-insensitively, a successful add of it followed by rm of it leaves the file as it was |

## Left out

- AES-256-GCM, Argon2 (`Argon2::default`), base64 and `str::as_bytes` are library calls: they are the functions of a `Primitives` parameter, with no property assumed except in `SealedEntryRecoverable`'s hypotheses. Their failure modes are modelled as a `None` result.
- `Aes256Gcm::new_from_slice` is not modelled as a failure point: the key it receives is always 32 bytes, the one length it accepts.
- `OsRng` randomness: the salt text of a new store (`generate_salt`) and the 12-byte nonce of an encrypted entry are parameters; nonce uniqueness across calls is a property of the random source, not of this code.
- Reading the master password from the terminal is a parameter (`master`); a failed terminal read is not modelled. All `println!` output is modelled only as the `ShowOutput` and `Listing` values; the echo of the plaintext password by an encrypted `add` is not modelled.
- JSON (de)serialisation is reduced to the file holding a `StoreImage` or content serde_json cannot read (`Malformed`); I/O errors of `File::open` other than absence, and a failing `File::create` or write, are not modelled.
- CLI parsing with clap, config-directory resolution and `main` are not part of this model.
- `src/store.rs`, `src/crypto/password.rs`, `src/hashing/password.rs` and `src/io.rs` belong to another revision of the program that `src/main.rs` does not call; `src/models/mod.rs` repeats the types of `src/main.rs`.
- Decryption does not exist in this revision; `Reveal` states what a decryption of the stored record would compute, and the properties of the AEAD itself (rejecting a wrong key, detecting tampering) belong to the library.
- `Lower` folds ASCII capitals only; the full Unicode lowercase mapping of `to_lowercase` is not modelled, and no property of the store depends on it.
- Vault.Store.Lookup: returns a matching key without fixing which one when several match, because HashMap iteration order is not determined by the source; the same holds for Vault.Store.Rm, Vault.Store.Show and the commands built on them.
