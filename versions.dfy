/**
 * The snapshot engine of src/resolvers/versionResolvers.js: a catalog of
 * compressed snapshots under the key 'versions', and restore.
 *
 * The list of tracked keys is a parameter: the module imports
 * `STORAGE_KEYS` from src/config.js, which does not define it.
 */
module Versions {
  import opened Wrappers
  import opened Values
  import opened Config
  import opened ForgeStorage
  import opened CacheLayer

  /** `STORAGE_KEYS.filter(key => key !== VERSION_STORAGE_KEY)`. */
  function SnapshotKeys(tracked: seq<string>): (keys: seq<string>)
    ensures forall k :: k in keys <==> k in tracked && k != VersionsKey
  {
    if tracked == [] then []
    else (if tracked[0] == VersionsKey then [] else [tracked[0]]) + SnapshotKeys(tracked[1..])
  }

  /** The keys a snapshot covers and a restore clears. */
  function SnapshotSet(tracked: seq<string>): set<string> {
    set k | k in tracked && k != VersionsKey
  }

  /**
   * What getAllStorageData collects from a store: every tracked key except
   * 'versions', `None` standing for the `undefined` of a missing key.
   */
  function Captured(data: map<string, Value>, tracked: seq<string>): (c: map<string, Option<Value>>)
    ensures c.Keys == SnapshotSet(tracked) && VersionsKey !in c
    ensures forall k :: k in c ==> c[k] == Lookup(data, k)
  {
    map k | k in SnapshotSet(tracked) :: Lookup(data, k)
  }

  /** `getAllStorageData()`: one `storage.get` per tracked key. */
  method GetAllStorageData(store: Storage, tracked: seq<string>) returns (data: map<string, Option<Value>>)
    ensures data.Keys == SnapshotSet(tracked)
    ensures forall k :: k in data ==> data[k] == store.Get(k)
  {
    data := map[];
    var keys := SnapshotKeys(tracked);
    var i := 0;
    while i < |keys|
      invariant 0 <= i <= |keys|
      invariant data.Keys == set k | k in keys[..i]
      invariant forall k :: k in data ==> data[k] == store.Get(k)
    {
      assert keys[..i + 1] == keys[..i] + [keys[i]];
      data := data[keys[i] := store.Get(keys[i])];
      i := i + 1;
    }
    assert keys[..i] == keys;
  }

  /**
   * `compressData`: JSON serialisation, then deflate and base64. Serialising
   * drops members that are `undefined`; the byte stages are lossless and
   * are not modelled.
   */
  function Compress(data: map<string, Option<Value>>): (b: Blob)
    ensures forall k :: k in b.json <==> k in data && data[k].Some?
  {
    Deflated(map k | k in data && data[k].Some? :: data[k].value)
  }

  /** `decompressData`: base64, inflate, then `JSON.parse`. */
  function Decompress(b: Blob): (data: map<string, Value>)
    ensures Compress(map k | k in data :: Some(data[k])) == b
  {
    var data := b.json;
    assert (map k | k in data :: Some(data[k])).Keys == data.Keys;
    data
  }

  /** Decompressing a compressed payload gives back every defined member. */
  lemma CompressRoundTrip(data: map<string, Option<Value>>, k: string)
    ensures k in Decompress(Compress(data)) <==> k in data && data[k].Some?
    ensures k in data && data[k].Some? ==> Decompress(Compress(data))[k] == data[k].value
  {
  }

  /**
   * The store after restoreAllStorageData: every snapshot key cleared, then
   * every payload member written.
   */
  function Restored(data: map<string, Value>, tracked: seq<string>, payload: map<string, Value>): (r: map<string, Value>)
    ensures forall k :: k in payload ==> Lookup(r, k) == Some(payload[k])
    ensures forall k :: k !in payload && k in SnapshotSet(tracked) ==> k !in r
    ensures forall k :: k !in payload && k !in SnapshotSet(tracked) ==> Lookup(r, k) == Lookup(data, k)
  {
    (data - SnapshotSet(tracked)) + payload
  }

  /** `restoreAllStorageData(data)`: delete every snapshot key, then set each payload member. */
  method RestoreAllStorageData(store: Storage, tracked: seq<string>, payload: map<string, Value>)
    modifies store
    ensures store.data == Restored(old(store.data), tracked, payload)
  {
    var keys := SnapshotKeys(tracked);
    var i := 0;
    while i < |keys|
      invariant 0 <= i <= |keys|
      invariant store.data == old(store.data) - set k | k in keys[..i]
    {
      assert keys[..i + 1] == keys[..i] + [keys[i]];
      store.Delete(keys[i]);
      i := i + 1;
    }
    assert keys[..i] == keys;
    assert (set k | k in keys) == SnapshotSet(tracked);
    ghost var cleared := store.data;
    var todo := payload.Keys;
    while todo != {}
      invariant todo <= payload.Keys
      invariant store.data == cleared + map k | k in payload && k !in todo :: payload[k]
      decreases todo
    {
      var k :| k in todo;
      store.Set(k, payload[k]);
      todo := todo - {k};
    }
    assert (map k | k in payload && k !in todo :: payload[k]) == payload;
  }

  /**
   * Restoring a snapshot brings back every snapshot key as it was when the
   * snapshot was taken, absent keys included, whatever happened since;
   * 'versions' and the untracked keys keep their current values.
   */
  lemma SnapshotRoundTrip(before: map<string, Value>, after: map<string, Value>, tracked: seq<string>, k: string)
    ensures var restored := Restored(after, tracked, Decompress(Compress(Captured(before, tracked))));
      && (k in SnapshotSet(tracked) ==> Lookup(restored, k) == Lookup(before, k))
      && (k !in SnapshotSet(tracked) ==> Lookup(restored, k) == Lookup(after, k))
  {
    var payload := Decompress(Compress(Captured(before, tracked)));
    CompressRoundTrip(Captured(before, tracked), k);
    if k in SnapshotSet(tracked) && k in before {
      assert Captured(before, tracked)[k] == Some(before[k]);
    }
  }

  /** The catalog is never part of a snapshot, so a restore leaves it alone. */
  lemma RestoreKeepsCatalog(data: map<string, Value>, tracked: seq<string>, snapshot: map<string, Value>)
    ensures VersionsKey !in Decompress(Compress(Captured(snapshot, tracked)))
    ensures Lookup(Restored(data, tracked, Decompress(Compress(Captured(snapshot, tracked)))), VersionsKey)
            == Lookup(data, VersionsKey)
  {
  }

  /** `{key, description, createdDate}`: a catalog entry without its payload. */
  datatype VersionInfo = VersionInfo(key: string, description: Option<Json>, createdDate: string)

  /** The `versions.map` of getVersions. */
  function Listing(vs: seq<Version>): (r: seq<VersionInfo>)
    ensures |r| == |vs|
    ensures forall i :: 0 <= i < |vs| ==>
              r[i] == VersionInfo(vs[i].key, vs[i].description, vs[i].createdDate)
  {
    if vs == [] then [] else [VersionInfo(vs[0].key, vs[0].description, vs[0].createdDate)] + Listing(vs[1..])
  }

  /** `getVersions()`: the catalog in order, payloads left out. */
  method GetVersions(store: Storage) returns (r: Result<seq<VersionInfo>, Thrown>)
    ensures ReadCatalog(store.Get(VersionsKey)).Failure? ==> r.Failure?
    ensures ReadCatalog(store.Get(VersionsKey)).Success? ==>
              r == Success(Listing(ReadCatalog(store.Get(VersionsKey)).value))
  {
    var versions :- ReadCatalog(store.Get(VersionsKey));
    r := Success(Listing(versions));
  }

  /** `versions.find(v => v.key === versionKey)`, as a position. */
  function FindVersion(vs: seq<Version>, key: string): (r: Option<nat>)
    ensures r.Some? ==> r.value < |vs| && vs[r.value].key == key
    ensures r.Some? ==> forall j :: 0 <= j < r.value ==> vs[j].key != key
    ensures r.None? <==> forall j :: 0 <= j < |vs| ==> vs[j].key != key
  {
    if vs == [] then None
    else if vs[0].key == key then Some(0)
    else match FindVersion(vs[1..], key)
      case None => None
      case Some(i) => Some(i + 1)
  }

  /** `versions.filter(v => v.key !== versionKey)`. */
  function DropVersion(vs: seq<Version>, key: string): (r: seq<Version>)
    ensures |r| <= |vs|
    ensures forall v :: v in r <==> v in vs && v.key != key
  {
    if vs == [] then []
    else (if vs[0].key == key then [] else [vs[0]]) + DropVersion(vs[1..], key)
  }

  /** Removal keeps the other versions in their order. */
  lemma {:induction false} DropVersionAppend(a: seq<Version>, b: seq<Version>, key: string)
    ensures DropVersion(a + b, key) == DropVersion(a, key) + DropVersion(b, key)
  {
    if a == [] {
      assert a + b == b;
    } else {
      assert (a + b)[1..] == a[1..] + b;
      DropVersionAppend(a[1..], b, key);
    }
  }

  /** Removing an absent key changes nothing, so removal is idempotent. */
  lemma {:induction false} DropVersionAbsent(vs: seq<Version>, key: string)
    requires forall j :: 0 <= j < |vs| ==> vs[j].key != key
    ensures DropVersion(vs, key) == vs
  {
    if vs != [] {
      DropVersionAbsent(vs[1..], key);
    }
  }

  lemma DropVersionIdempotent(vs: seq<Version>, key: string)
    ensures DropVersion(DropVersion(vs, key), key) == DropVersion(vs, key)
  {
    var r := DropVersion(vs, key);
    assert forall j :: 0 <= j < |r| ==> r[j] in r;
    DropVersionAbsent(r, key);
  }

  /**
   * createVersion does not check for an existing key: the appended version
   * is the one restore finds only if no earlier version has its key.
   */
  lemma AppendedVersionShadowed(vs: seq<Version>, v: Version)
    ensures FindVersion(vs + [v], v.key) ==
              if FindVersion(vs, v.key).Some? then FindVersion(vs, v.key) else Some(|vs|)
  {
    var r := FindVersion(vs + [v], v.key);
    match FindVersion(vs, v.key)
    case Some(i) =>
      assert (vs + [v])[i] == vs[i];
      assert !(r.value < i) && !(i < r.value);
    case None =>
      assert (vs + [v])[|vs|] == v;
  }

  /**
   * `createVersion({key, description})` at clock `createdDate`: captures the
   * snapshot keys, compresses them and appends one version to the catalog.
   */
  method CreateVersion(store: Storage, tracked: seq<string>, key: string, description: Option<Json>,
                       createdDate: string) returns (r: Result<Version, Thrown>)
    modifies store
    ensures ReadCatalog(old(store.Get(VersionsKey))).Failure? ==> r.Failure? && store.data == old(store.data)
    ensures ReadCatalog(old(store.Get(VersionsKey))).Success? ==>
              var vs := ReadCatalog(old(store.Get(VersionsKey))).value;
              && r == Success(Version(key, description, createdDate, Compress(Captured(old(store.data), tracked))))
              && store.data == old(store.data)[VersionsKey := Catalog(vs + [r.value])]
  {
    var data := GetAllStorageData(store, tracked);
    assert data == Captured(store.data, tracked);
    var compressed := Compress(data);
    var versions :- ReadCatalog(store.Get(VersionsKey));
    var newVersion := Version(key, description, createdDate, compressed);
    versions := versions + [newVersion];
    store.Set(VersionsKey, Catalog(versions));
    r := Success(newVersion);
  }

  /** `removeVersion({versionKey})`: drops every version with the key; an absent key is no error. */
  method RemoveVersion(store: Storage, versionKey: string) returns (r: Result<(), Thrown>)
    modifies store
    ensures ReadCatalog(old(store.Get(VersionsKey))).Failure? ==> r.Failure? && store.data == old(store.data)
    ensures ReadCatalog(old(store.Get(VersionsKey))).Success? ==>
              r.Success? &&
              store.data == old(store.data)[VersionsKey :=
                Catalog(DropVersion(ReadCatalog(old(store.Get(VersionsKey))).value, versionKey))]
  {
    var versions :- ReadCatalog(store.Get(VersionsKey));
    var updatedVersions := DropVersion(versions, versionKey);
    store.Set(VersionsKey, Catalog(updatedVersions));
    r := Success(());
  }

  /**
   * `restoreVersion({versionKey})`: the first version with the key is
   * decompressed and restored, then the cache is initialised again from the
   * new store. An unknown key throws and changes nothing.
   */
  method RestoreVersion(store: Storage, cache: Cache, tracked: seq<string>, versionKey: string)
    returns (r: Result<(), Thrown>)
    modifies store, cache
    ensures ReadCatalog(old(store.Get(VersionsKey))).Failure? ==>
              r.Failure? && store.data == old(store.data) && unchanged(cache)
    ensures ReadCatalog(old(store.Get(VersionsKey))).Success? ==>
              var vs := ReadCatalog(old(store.Get(VersionsKey))).value;
              if FindVersion(vs, versionKey).None? then
                r == Failure(Error("Version not found")) && store.data == old(store.data) && unchanged(cache)
              else
                && r.Success?
                && store.data == Restored(old(store.data), tracked, Decompress(vs[FindVersion(vs, versionKey).value].data))
                && (forall s :: cache.GetFromCache(s) == Some(OrEmpty(store.Get(KeyOf(s)))))
                && cache.users == old(cache.users)
  {
    var versions :- ReadCatalog(store.Get(VersionsKey));
    var found := FindVersion(versions, versionKey);
    if found.None? {
      return Failure(Error("Version not found"));
    }
    var version := versions[found.value];
    var decompressedData := Decompress(version.data);
    RestoreAllStorageData(store, tracked, decompressedData);
    cache.InitializeCache(store);
    r := Success(());
  }
}
