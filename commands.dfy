/**
 * The four commands of src/main.rs as whole runs against the config file: load the
 * store (or start a fresh one when there is no file), apply the operation, and, for
 * `add` and `rm`, overwrite the file with the result. The store object lives only for
 * the duration of the command, so each contract speaks of the file alone.
 */
module Commands {
  import opened Wrappers
  import opened Records
  import opened Vault

  /** `add`: `freshSalt` is the salt a new store would get, `master` the prompted master password. */
  method AddCommand(file: ConfigFile, freshSalt: string, p: Primitives, username: string, password: string,
                    encrypted: bool, master: string, nonce: Nonce) returns (r: Outcome<Error>)
    modifies file
    ensures LoadImage(old(file.contents), freshSalt).None? ==>
      r == Fail(MalformedStore) && file.contents == old(file.contents)
    ensures LoadImage(old(file.contents), freshSalt).Some? ==>
      var image := LoadImage(old(file.contents), freshSalt).value;
      var entry := NewEntry(p, username, password, encrypted, image.meta.salt, master, nonce);
      && (username in image.entries ==> r == Fail(UsernameExists))
      && (r.Pass? <==> username !in image.entries && entry.Ok?)
      && (r.Pass? ==> file.contents == Holds(StoreImage(image.meta, image.entries[username := entry.value])))
      && (r.Fail? && username !in image.entries ==> entry.Err? && r.error == entry.error)
      && (r.Fail? ==> file.contents == old(file.contents))
  {
    var loaded := Store.Load(file, freshSalt);
    match loaded
    case Err(e) =>
      r := Fail(e);
    case Ok(store) =>
      r := store.Add(file, p, username, password, encrypted, master, nonce);
  }

  /** `rm`: removes one case-insensitively matching key, or fails with "Username not found". */
  method RmCommand(file: ConfigFile, freshSalt: string, username: string) returns (r: Outcome<Error>)
    modifies file
    ensures LoadImage(old(file.contents), freshSalt).None? ==>
      r == Fail(MalformedStore) && file.contents == old(file.contents)
    ensures LoadImage(old(file.contents), freshSalt).Some? ==>
      var image := LoadImage(old(file.contents), freshSalt).value;
      && (r.Pass? <==> Matches(image.entries, username) != {})
      && (r.Pass? ==> exists k :: k in Matches(image.entries, username) &&
                        file.contents == Holds(StoreImage(image.meta, image.entries - {k})))
      && (r.Fail? ==> r.error == UsernameNotFound && file.contents == old(file.contents))
  {
    var loaded := Store.Load(file, freshSalt);
    match loaded
    case Err(e) =>
      r := Fail(e);
    case Ok(store) =>
      var removed := store.Rm(file, username);
      match removed
      case Ok(k) =>
        r := Pass;
      case Err(e) =>
        r := Fail(e);
  }

  /** `show`: never writes; succeeds whether or not a key matches. */
  method ShowCommand(file: ConfigFile, freshSalt: string, username: string) returns (r: Result<ShowOutput, Error>)
    ensures LoadImage(file.contents, freshSalt).None? ==> r == Err(MalformedStore)
    ensures LoadImage(file.contents, freshSalt).Some? ==>
      var image := LoadImage(file.contents, freshSalt).value;
      && r.Ok?
      && (r.value.Found? <==> Matches(image.entries, username) != {})
      && (r.value.Found? ==> r.value.key in Matches(image.entries, username) &&
                             r.value.password == image.entries[r.value.key].password)
  {
    var loaded := Store.Load(file, freshSalt);
    match loaded
    case Err(e) =>
      r := Err(e);
    case Ok(store) =>
      var out := store.Show(username);
      r := Ok(out);
  }

  /** `list`: never writes; a missing file lists as an empty store. */
  method ListCommand(file: ConfigFile, freshSalt: string) returns (r: Result<Listing, Error>)
    ensures LoadImage(file.contents, freshSalt).None? ==> r == Err(MalformedStore)
    ensures LoadImage(file.contents, freshSalt).Some? ==>
      var image := LoadImage(file.contents, freshSalt).value;
      && r.Ok?
      && (r.value.NoEntriesFound? <==> |image.entries| == 0)
      && (r.value.SavedEntries? ==>
            |r.value.usernames| == |image.entries| &&
            (forall k :: k in r.value.usernames <==> k in image.entries) &&
            forall i, j :: 0 <= i < j < |r.value.usernames| ==> r.value.usernames[i] != r.value.usernames[j])
  {
    var loaded := Store.Load(file, freshSalt);
    match loaded
    case Err(e) =>
      r := Err(e);
    case Ok(store) =>
      var out := store.List();
      r := Ok(out);
  }

  /**
   * A first run with no config file: adding "alice" / "hunter2" unencrypted creates the
   * file, and loading it again yields exactly that one entry under the new store's salt.
   */
  method LifecycleScenario(p: Primitives, salt: string, nonce: Nonce) returns (reloaded: StoreImage)
    ensures reloaded == StoreImage(Meta(salt), map["alice" := Entry("alice", "hunter2", false, None)])
  {
    var file := new ConfigFile(Absent);
    var r := AddCommand(file, salt, p, "alice", "hunter2", false, "", nonce);
    assert r.Pass?;
    var loaded := Store.Load(file, "unused");
    reloaded := loaded.value.Image();
  }

  /** Adding "alice" twice: the second add fails, even encrypted, and the file keeps the first entry. */
  method DuplicateScenario(p: Primitives, salt: string, master: string, nonce: Nonce)
    returns (second: Outcome<Error>, after: FileState)
    ensures second == Fail(UsernameExists)
    ensures after == Holds(StoreImage(Meta(salt), map["alice" := Entry("alice", "hunter2", false, None)]))
  {
    var file := new ConfigFile(Absent);
    var first := AddCommand(file, salt, p, "alice", "hunter2", false, master, nonce);
    assert first.Pass?;
    second := AddCommand(file, salt, p, "alice", "different", true, master, nonce);
    after := file.contents;
  }

  /** The lookup of "alice" in a store whose only key is "Alice". */
  lemma AliceMatches(entries: map<string, Entry>)
    requires entries.Keys == {"Alice"}
    ensures Matches(entries, "alice") == {"Alice"}
  {
  }

  /** "Alice" is stored; `show` and `rm` given "alice" find it and act on the "Alice" entry. */
  method CaseInsensitiveScenario(p: Primitives, salt: string, nonce: Nonce)
    returns (shown: Result<ShowOutput, Error>, after: FileState)
    ensures shown == Ok(Found("Alice", "hunter2"))
    ensures after == Holds(StoreImage(Meta(salt), map[]))
  {
    var file := new ConfigFile(Absent);
    var added := AddCommand(file, salt, p, "Alice", "hunter2", false, "", nonce);
    assert added.Pass?;
    AliceMatches(file.contents.image.entries);
    shown := ShowCommand(file, salt, "alice");
    var removed := RmCommand(file, salt, "alice");
    assert removed.Pass?;
    after := file.contents;
    assert file.contents.image.entries == map[];
  }

  /** The lookup of "ALICE" in a store holding both "Alice" and "alice". */
  lemma AliceVariantsMatch(entries: map<string, Entry>)
    requires entries.Keys == {"Alice", "alice"}
    ensures Matches(entries, "ALICE") == {"Alice", "alice"}
  {
  }

  /**
   * `add` compares usernames exactly, so "Alice" and "alice" can both be stored; `show`
   * given "ALICE" then finds one of the two, and which one the model leaves open.
   */
  method CollisionScenario(p: Primitives, salt: string, nonce: Nonce)
    returns (second: Outcome<Error>, shown: Result<ShowOutput, Error>)
    ensures second == Pass
    ensures shown.Ok? && shown.value.Found? && shown.value.key in {"Alice", "alice"}
  {
    var file := new ConfigFile(Absent);
    var first := AddCommand(file, salt, p, "Alice", "hunter2", false, "", nonce);
    assert first.Pass?;
    second := AddCommand(file, salt, p, "alice", "swordfish", false, "", nonce);
    AliceVariantsMatch(file.contents.image.entries);
    shown := ShowCommand(file, salt, "ALICE");
  }

  /**
   * `rm` undoes `add`: when no stored key matches `username` even case-insensitively,
   * a successful add followed by an rm of the same name leaves the file as it was.
   */
  method AddThenRm(file: ConfigFile, p: Primitives, username: string, password: string,
                   encrypted: bool, master: string, nonce: Nonce) returns (added: Outcome<Error>, removed: Outcome<Error>)
    requires file.contents.Holds?
    requires Matches(file.contents.image.entries, username) == {}
    modifies file
    ensures added.Pass? ==> removed == Pass && file.contents == old(file.contents)
    ensures added.Fail? ==> removed == Fail(UsernameNotFound) && file.contents == old(file.contents)
  {
    ghost var before := file.contents.image;
    assert username in before.entries ==> username in Matches(before.entries, username);
    added := AddCommand(file, "", p, username, password, encrypted, master, nonce);
    ghost var inserted := file.contents.image.entries;
    if added.Pass? {
      assert Matches(inserted, username) == {username};
    }
    removed := RmCommand(file, "", username);
    if added.Pass? {
      assert before.entries == inserted - {username};
    }
  }
}
