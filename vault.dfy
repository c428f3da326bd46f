/**
 * The credential store of src/main.rs: a `Store` object holding the metadata and the
 * map from username to `Entry`, loaded from and saved to the config file, and the
 * four commands' operations on it. `add` and `rm` update the map in place and then
 * overwrite the whole file; `show` and `list` only read.
 */
module Vault {
  import opened Wrappers
  import opened Text
  import opened Records

  /** The whole store as it is serialised to the config file. */
  datatype StoreImage = StoreImage(meta: Meta, entries: map<string, Entry>)

  /** What the config file holds: nothing yet, a store, or text serde_json cannot read. */
  datatype FileState = Absent | Holds(image: StoreImage) | Malformed

  /** The config file `config.json`; `File::create` plus `to_writer_pretty` replaces its contents. */
  class ConfigFile {
    var contents: FileState

    constructor (contents: FileState)
      ensures this.contents == contents
    {
      this.contents := contents;
    }
  }

  /** What `load_store` yields for a file: its store, or a fresh one when there is no file. */
  function LoadImage(contents: FileState, freshSalt: string): Option<StoreImage>
  {
    match contents
    case Absent => Some(StoreImage(Meta(freshSalt), map[]))
    case Holds(image) => Some(image)
    case Malformed => None
  }

  /** The keys that `rm` and `show` accept for `name`: equal to it after lowercasing. */
  function Matches(entries: map<string, Entry>, name: string): set<string>
  {
    set k | k in entries && SameName(k, name)
  }

  /**
   * `Iterator::find` over keys visited in `order`: the first key whose lowercase form
   * equals that of `name`, or none when no key does.
   */
  function FindKey(order: seq<string>, name: string): (r: Option<string>)
    ensures r.None? <==> forall i :: 0 <= i < |order| ==> !SameName(order[i], name)
    ensures r.Some? ==>
      exists i :: 0 <= i < |order| && order[i] == r.value && SameName(r.value, name) &&
        forall j :: 0 <= j < i ==> !SameName(order[j], name)
  {
    if order == [] then None
    else if SameName(order[0], name) then Some(order[0])
    else
      var r := FindKey(order[1..], name);
      assert forall i :: 1 <= i < |order| ==> order[i] == order[1..][i - 1];
      r
  }

  /** What `show` prints: the key found and its stored password field, or that there is none. */
  datatype ShowOutput = Found(key: string, password: string) | NoEntryFound

  /** What `list` prints: "No entries found." or the banner followed by every key. */
  datatype Listing = NoEntriesFound | SavedEntries(usernames: seq<string>)

  class Store {
    var meta: Meta
    var entries: map<string, Entry>

    /** The record invariant every entry written by `add` keeps. */
    ghost predicate Valid()
      reads this
    {
      ValidEntries(entries)
    }

    function Image(): StoreImage
      reads this
    {
      StoreImage(meta, entries)
    }

    /** `init_new_store`: the given salt text and no entries. */
    constructor InitNewStore(salt: string)
      ensures meta == Meta(salt) && entries == map[]
      ensures Valid()
    {
      meta := Meta(salt);
      entries := map[];
    }

    constructor FromImage(image: StoreImage)
      ensures Image() == image
    {
      meta := image.meta;
      entries := image.entries;
    }

    /**
     * `load_store`: the file's store when it holds one, a new store with `freshSalt`
     * (the base64 text of 32 random bytes) when there is no file, an error otherwise.
     */
    static method Load(file: ConfigFile, freshSalt: string) returns (r: Result<Store, Error>)
      ensures r.Ok? <==> LoadImage(file.contents, freshSalt).Some?
      ensures r.Ok? ==> fresh(r.value) && r.value.Image() == LoadImage(file.contents, freshSalt).value
      ensures r.Err? ==> r.error == MalformedStore
    {
      if file.contents.Absent? {
        var s := new Store.InitNewStore(freshSalt);
        r := Ok(s);
      } else if file.contents.Holds? {
        var s := new Store.FromImage(file.contents.image);
        r := Ok(s);
      } else {
        r := Err(MalformedStore);
      }
    }

    /** Overwrites the config file with the whole store. */
    method Save(file: ConfigFile)
      modifies file
      ensures file.contents == Holds(Image())
    {
      file.contents := Holds(Image());
    }

    /**
     * The keys in HashMap iteration order: every key exactly once, in an order the
     * model leaves open (each step takes any key not yet visited).
     */
    method IterationOrder() returns (order: seq<string>)
      ensures |order| == |entries|
      ensures forall k :: k in order <==> k in entries
      ensures forall i, j :: 0 <= i < j < |order| ==> order[i] != order[j]
    {
      order := [];
      var rest := entries.Keys;
      while rest != {}
        invariant rest <= entries.Keys
        invariant forall k :: k in entries <==> k in rest || k in order
        invariant forall k :: k in order ==> k !in rest
        invariant forall i, j :: 0 <= i < j < |order| ==> order[i] != order[j]
        invariant |order| + |rest| == |entries|
        decreases rest
      {
        var k :| k in rest;
        order := order + [k];
        rest := rest - {k};
      }
    }

    /**
     * The case-insensitive lookup of `rm` and `show`: the first key in iteration order
     * that matches `name`. Which key that is when several differ only by case is left open.
     */
    method Lookup(name: string) returns (key: Option<string>)
      ensures key.Some? <==> Matches(entries, name) != {}
      ensures key.Some? ==> key.value in Matches(entries, name)
    {
      var order := IterationOrder();
      key := FindKey(order, name);
      if key.Some? {
        assert key.value in Matches(entries, name);
      } else {
        forall k | k in entries
          ensures !SameName(k, name)
        {
          assert k in order;
        }
        assert Matches(entries, name) == {};
      }
    }

    /**
     * The map logic of `add`: refuse a username that is already a key (exact,
     * case-sensitive match) before any cryptographic step; otherwise build the record,
     * insert it under `username` and save the store. `master` is the prompted master
     * password and `nonce` the random nonce; only an encrypted entry uses them.
     */
    method Add(file: ConfigFile, p: Primitives, username: string, password: string, encrypted: bool,
               master: string, nonce: Nonce) returns (r: Outcome<Error>)
      modifies this, file
      ensures meta == old(meta)
      ensures username in old(entries) ==> r == Fail(UsernameExists)
      ensures r.Pass? <==> username !in old(entries) && NewEntry(p, username, password, encrypted, meta.salt, master, nonce).Ok?
      ensures r.Pass? ==>
        entries == old(entries)[username := NewEntry(p, username, password, encrypted, meta.salt, master, nonce).value] &&
        file.contents == Holds(Image())
      ensures r.Pass? ==> entries.Keys == old(entries).Keys + {username} && |entries| == |old(entries)| + 1
      ensures r.Pass? ==> forall k :: k in old(entries) ==> k in entries && entries[k] == old(entries)[k]
      ensures r.Pass? ==> entries[username].username == username && WellFormed(entries[username])
      ensures r.Fail? && username !in old(entries) ==>
        r.error == NewEntry(p, username, password, encrypted, meta.salt, master, nonce).error
      ensures r.Fail? ==> entries == old(entries) && file.contents == old(file.contents)
      ensures old(Valid()) ==> Valid()
    {
      if username in entries {
        return Fail(UsernameExists);
      }
      var entry := NewEntry(p, username, password, encrypted, meta.salt, master, nonce);
      match entry
      case Err(e) =>
        r := Fail(e);
      case Ok(e) =>
        entries := entries[username := e];
        Save(file);
        r := Pass;
    }

    /**
     * The map logic of `rm`: find a key matching `username` case-insensitively, remove
     * that key alone and save the store; with no match report "Username not found" and
     * write nothing. The removed key is returned.
     */
    method Rm(file: ConfigFile, username: string) returns (r: Result<string, Error>)
      modifies this, file
      ensures meta == old(meta)
      ensures r.Ok? <==> Matches(old(entries), username) != {}
      ensures r.Ok? ==>
        r.value in Matches(old(entries), username) &&
        entries == old(entries) - {r.value} &&
        file.contents == Holds(Image())
      ensures r.Ok? ==> |entries| == |old(entries)| - 1
      ensures r.Ok? ==> forall k :: k in old(entries) && k != r.value ==> k in entries && entries[k] == old(entries)[k]
      ensures r.Err? ==> r.error == UsernameNotFound && entries == old(entries) && file.contents == old(file.contents)
      ensures old(Valid()) ==> Valid()
    {
      var key := Lookup(username);
      match key
      case Some(k) =>
        entries := entries - {k};
        Save(file);
        r := Ok(k);
      case None =>
        r := Err(UsernameNotFound);
    }

    /**
     * `show`: the key matching `username` case-insensitively and that entry's stored
     * `password` field as it is (never decrypted), or no entry; it never fails.
     */
    method Show(username: string) returns (out: ShowOutput)
      ensures out.Found? <==> Matches(entries, username) != {}
      ensures out.Found? ==> out.key in Matches(entries, username) && out.password == entries[out.key].password
    {
      var key := Lookup(username);
      match key
      case Some(k) =>
        out := Found(k, entries[k].password);
      case None =>
        out := NoEntryFound;
    }

    /** `list`: "No entries found." exactly when the map is empty, otherwise every key once. */
    method List() returns (out: Listing)
      ensures out.NoEntriesFound? <==> |entries| == 0
      ensures out.SavedEntries? ==>
        |out.usernames| == |entries| &&
        (forall k :: k in out.usernames <==> k in entries) &&
        forall i, j :: 0 <= i < j < |out.usernames| ==> out.usernames[i] != out.usernames[j]
    {
      if |entries| == 0 {
        out := NoEntriesFound;
      } else {
        var keys := IterationOrder();
        out := SavedEntries(keys);
      }
    }
  }
}
