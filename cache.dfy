/**
 * The in-memory cache of src/cache.js: five collection slots mirrored from
 * storage and a user directory built from a Jira user search. `null` is
 * `None`. The Jira calls themselves are not modelled: the users they return
 * are a parameter.
 */
module CacheLayer {
  import opened Wrappers
  import opened Values
  import opened Config
  import opened ForgeStorage

  /** The collection slots of the `cache` object. */
  datatype Slot = Types | Stages | Statuses | ValidationChecklist | VerificationChecklist

  /** `storageKeyMap[key]`: the slot a storage key is mirrored in, if any. */
  function SlotFor(key: string): (s: Option<Slot>)
    ensures s.Some? ==> KeyOf(s.value) == key
  {
    if key == UserTypesKey then Some(Types)
    else if key == StagesKey then Some(Stages)
    else if key == StatusKey then Some(Statuses)
    else if key == ValidationChecklistKey then Some(ValidationChecklist)
    else if key == VerificationChecklistKey then Some(VerificationChecklist)
    else None
  }

  /** The storage key whose value a slot mirrors. */
  function KeyOf(s: Slot): string {
    match s
    case Types => UserTypesKey
    case Stages => StagesKey
    case Statuses => StatusKey
    case ValidationChecklist => ValidationChecklistKey
    case VerificationChecklist => VerificationChecklistKey
  }

  /** `storageKeyMap` is a bijection between its five keys and the five slots. */
  lemma StorageKeyMapBijective(key: string, s: Slot)
    ensures SlotFor(key) == Some(s) <==> KeyOf(s) == key
    ensures SlotFor(KeyOf(s)) == Some(s)
  {
  }

  /** Keys the cache does not map, such as the types resolvers' own 'types'. */
  lemma UnmappedKeys()
    ensures SlotFor(TypesKey).None? && SlotFor(RequirementsKey).None?
    ensures SlotFor(JoinKey).None? && SlotFor(VersionsKey).None?
  {
  }

  /**
   * The array a cache-first resolver starts from: the cached slot when it is
   * not `null`, even if storage has changed since, else the stored value or `[]`.
   */
  function CacheFirst(cached: Option<Value>, stored: Option<Value>): (v: Value)
    ensures cached.Some? ==> v == cached.value
    ensures cached.None? && stored.Some? ==> v == stored.value
    ensures cached.None? && stored.None? ==> v == List([])
  {
    if cached.Some? then cached.value else OrEmpty(stored)
  }

  /** The keys of `storageKeyMap` in `Object.entries` order. */
  const MappedKeys: seq<string> :=
    [UserTypesKey, StagesKey, StatusKey, ValidationChecklistKey, VerificationChecklistKey]

  /** A user as the Jira user search returns it. */
  datatype JiraUser = JiraUser(accountId: string, displayName: Option<Json>,
                               avatarUrls: Option<map<string, string>>)

  /** The projection kept in the directory; `avatarUrl` is `None` for `null`. */
  datatype UserEntry = UserEntry(accountId: string, displayName: Option<Json>, avatarUrl: Option<string>)

  /** `{accountId, displayName, avatarUrl: user.avatarUrls?.['48x48'] || null}`. */
  function Entry(u: JiraUser): (e: UserEntry)
    ensures e.accountId == u.accountId && e.displayName == u.displayName
    ensures e.avatarUrl.None? <==>
              u.avatarUrls.None? || "48x48" !in u.avatarUrls.value || u.avatarUrls.value["48x48"] == ""
    ensures e.avatarUrl.Some? ==> e.avatarUrl.value == u.avatarUrls.value["48x48"]
  {
    var url :=
      if u.avatarUrls.Some? && "48x48" in u.avatarUrls.value && u.avatarUrls.value["48x48"] != ""
      then Some(u.avatarUrls.value["48x48"]) else None;
    UserEntry(u.accountId, u.displayName, url)
  }

  /** The `users.reduce` of `fetchAndCacheUsers`: a dictionary keyed by account id. */
  function UserDirectory(users: seq<JiraUser>): (dir: map<string, UserEntry>)
    ensures forall id :: id in dir ==> dir[id].accountId == id
  {
    if users == [] then map[]
    else
      var last := users[|users| - 1];
      UserDirectory(users[..|users| - 1])[last.accountId := Entry(last)]
  }

  /** The directory has one key per account id among the users. */
  lemma {:induction false} UserDirectoryKeys(users: seq<JiraUser>, id: string)
    ensures id in UserDirectory(users) <==> exists i :: 0 <= i < |users| && users[i].accountId == id
  {
    if users != [] {
      var n := |users| - 1;
      UserDirectoryKeys(users[..n], id);
      if id != users[n].accountId && id in UserDirectory(users) {
        var i :| 0 <= i < n && users[..n][i].accountId == id;
        assert users[i].accountId == id;
      }
    }
  }

  /** A later user with the same account id overwrites an earlier one. */
  lemma {:induction false} UserDirectoryLastWins(users: seq<JiraUser>, i: nat)
    requires i < |users|
    requires forall j :: i < j < |users| ==> users[j].accountId != users[i].accountId
    ensures users[i].accountId in UserDirectory(users)
    ensures UserDirectory(users)[users[i].accountId] == Entry(users[i])
  {
    var n := |users| - 1;
    if i < n {
      UserDirectoryLastWins(users[..n], i);
    }
  }

  /** What `getAllCachedData` returns. */
  datatype CachedData = CachedData(
    types: Option<Value>, stages: Option<Value>, statuses: Option<Value>,
    validationChecklist: Option<Value>, verificationChecklist: Option<Value>,
    users: Option<map<string, UserEntry>>)

  /** The module-level `cache` object. */
  class Cache {
    var types: Option<Value>
    var stages: Option<Value>
    var statuses: Option<Value>
    var validationChecklist: Option<Value>
    var verificationChecklist: Option<Value>
    var users: Option<map<string, UserEntry>>

    /** The object literal: every slot starts out `null`. */
    constructor ()
      ensures forall s :: GetFromCache(s).None?
      ensures users.None?
    {
      types, stages, statuses := None, None, None;
      validationChecklist, verificationChecklist := None, None;
      users := None;
    }

    /** `getFromCache(key)` for a collection slot. */
    function GetFromCache(s: Slot): (v: Option<Value>)
      reads this
      ensures s == Types ==> v == types
      ensures s == Stages ==> v == stages
      ensures s == Statuses ==> v == statuses
      ensures s == ValidationChecklist ==> v == validationChecklist
      ensures s == VerificationChecklist ==> v == verificationChecklist
    {
      match s
      case Types => types
      case Stages => stages
      case Statuses => statuses
      case ValidationChecklist => validationChecklist
      case VerificationChecklist => verificationChecklist
    }

    /** `getAllCachedData()`: the six slots as they are, without changing them. */
    function GetAllCachedData(): (d: CachedData)
      reads this
      ensures d.types == GetFromCache(Types) && d.stages == GetFromCache(Stages)
      ensures d.statuses == GetFromCache(Statuses)
      ensures d.validationChecklist == GetFromCache(ValidationChecklist)
      ensures d.verificationChecklist == GetFromCache(VerificationChecklist)
      ensures d.users == users
    {
      CachedData(types, stages, statuses, validationChecklist, verificationChecklist, users)
    }

    /** `cache[slot] = v`. */
    method SetSlot(s: Slot, v: Option<Value>)
      modifies this
      ensures GetFromCache(s) == v
      ensures forall t :: t != s ==> GetFromCache(t) == old(GetFromCache(t))
      ensures users == old(users)
    {
      match s
      case Types => types := v;
      case Stages => stages := v;
      case Statuses => statuses := v;
      case ValidationChecklist => validationChecklist := v;
      case VerificationChecklist => verificationChecklist := v;
    }

    /**
     * `initializeCache()`: every mapped slot gets the stored value or `[]`;
     * the user directory is left alone. The per-key reads are independent, so
     * running them one after the other gives the same state as `Promise.all`.
     */
    method InitializeCache(store: Storage)
      modifies this
      ensures forall s :: GetFromCache(s) == Some(OrEmpty(store.Get(KeyOf(s))))
      ensures users == old(users)
    {
      var i := 0;
      while i < |MappedKeys|
        invariant 0 <= i <= |MappedKeys|
        invariant forall s :: GetFromCache(s) ==
                    if KeyOf(s) in MappedKeys[..i] then Some(OrEmpty(store.Get(KeyOf(s))))
                    else old(GetFromCache(s))
        invariant users == old(users)
      {
        var key := MappedKeys[i];
        var data := store.Get(key);
        SetSlot(SlotFor(key).value, Some(OrEmpty(data)));
        i := i + 1;
      }
      assert MappedKeys[..i] == MappedKeys;
    }

    /**
     * `updateCache(keys)`: re-reads the mapped keys among `keys` and leaves
     * every other slot, and the user directory, as it was.
     */
    method UpdateCache(store: Storage, keys: seq<string>)
      modifies this
      ensures forall s :: GetFromCache(s) ==
                if KeyOf(s) in keys then Some(OrEmpty(store.Get(KeyOf(s)))) else old(GetFromCache(s))
      ensures users == old(users)
    {
      var i := 0;
      while i < |keys|
        invariant 0 <= i <= |keys|
        invariant forall s :: GetFromCache(s) ==
                    if KeyOf(s) in keys[..i] then Some(OrEmpty(store.Get(KeyOf(s))))
                    else old(GetFromCache(s))
        invariant users == old(users)
      {
        var key := keys[i];
        var slot := SlotFor(key);
        if slot.Some? {
          var data := store.Get(key);
          SetSlot(slot.value, Some(OrEmpty(data)));
        }
        assert keys[..i + 1] == keys[..i] + [key];
        i := i + 1;
      }
      assert keys[..i] == keys;
    }

    /** `clearCache()`: all six slots, the user directory included, become `null`. */
    method ClearCache()
      modifies this
      ensures forall s :: GetFromCache(s).None?
      ensures users.None?
    {
      types, stages, statuses := None, None, None;
      validationChecklist, verificationChecklist := None, None;
      users := None;
    }

    /**
     * `fetchAndCacheUsers()`, given the users the Jira search returns:
     * the directory is stored in the cache and returned.
     */
    method FetchAndCacheUsers(assignable: seq<JiraUser>) returns (dir: map<string, UserEntry>)
      modifies this
      ensures dir == UserDirectory(assignable)
      ensures users == Some(dir)
      ensures forall s :: GetFromCache(s) == old(GetFromCache(s))
    {
      dir := UserDirectory(assignable);
      users := Some(dir);
    }

    /**
     * `getUserFromCache()`: the cached directory when there is one (an empty
     * object is truthy); otherwise it is fetched, cached and returned.
     */
    method GetUserFromCache(assignable: seq<JiraUser>) returns (dir: map<string, UserEntry>)
      modifies this
      ensures old(users).Some? ==> dir == old(users).value && users == old(users)
      ensures old(users).None? ==> dir == UserDirectory(assignable) && users == Some(dir)
      ensures forall s :: GetFromCache(s) == old(GetFromCache(s))
    {
      if users.None? {
        dir := FetchAndCacheUsers(assignable);
      } else {
        dir := users.value;
      }
    }
  }
}
