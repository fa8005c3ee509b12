/**
 * src/resolvers/statusResolvers.js: statuses read through the cache. Each
 * write stores the whole array and then refreshes the cached slot from
 * storage, so after every successful write the slot equals the stored value.
 */
module StatusResolvers {
  import opened Wrappers
  import opened Values
  import opened Config
  import opened Ids
  import opened ForgeStorage
  import opened Records
  import opened CacheLayer

  /** `getStatuses()`: the cached slot when it is not `null`, else the stored array or `[]`. */
  method GetStatuses(store: Storage, cache: Cache) returns (r: Value)
    ensures cache.statuses.Some? ==> r == cache.statuses.value
    ensures cache.statuses.None? && StatusKey in store.data ==> r == store.data[StatusKey]
    ensures cache.statuses.None? && StatusKey !in store.data ==> r == List([])
  {
    var cached := cache.GetFromCache(Statuses);
    if cached.Some? {
      return cached.value;
    }
    var stored := store.Get(StatusKey);
    r := OrEmpty(stored);
  }

  /**
   * `addStatus({name, color})` at clock `now`: appends one `{id, name, color}` to
   * the cache-first array, stores it and refreshes the cache.
   */
  method AddStatus(store: Storage, cache: Cache, name: Option<Json>, color: Option<Json>, now: int)
    returns (r: Result<Record, Thrown>)
    modifies store, cache
    ensures var base := AsList(CacheFirst(old(cache.statuses), old(store.Get(StatusKey))));
      base.Failure? ==> r.Failure? && store.data == old(store.data) && unchanged(cache)
    ensures var base := AsList(CacheFirst(old(cache.statuses), old(store.Get(StatusKey))));
      base.Success? ==>
        && r == Success(NewRecord(GenerateUniqueId("status", now), map["name" := name, "color" := color]))
        && store.data == old(store.data)[StatusKey := List(base.value + [r.value])]
    ensures r.Success? ==> cache.GetFromCache(Statuses) == store.Get(StatusKey)
    ensures forall s :: s != Statuses ==> cache.GetFromCache(s) == old(cache.GetFromCache(s))
    ensures cache.users == old(cache.users)
  {
    var statuses := GetStatuses(store, cache);
    var xs :- AsList(statuses);
    var newStatus := NewRecord(GenerateUniqueId("status", now), map["name" := name, "color" := color]);
    xs := xs + [newStatus];
    store.Set(StatusKey, List(xs));
    cache.UpdateCache(store, [StatusKey]);
    assert forall sl :: KeyOf(sl) in [StatusKey] <==> sl == Statuses;
    r := Success(newStatus);
  }

  /**
   * `updateStatus({id, name, color})`: the first record with the id gets the new
   * name and color; an absent id throws "Status not found" and writes nothing.
   */
  method UpdateStatus(store: Storage, cache: Cache, id: string, name: Option<Json>, color: Option<Json>)
    returns (r: Result<Record, Thrown>)
    modifies store, cache
    ensures var base := AsList(CacheFirst(old(cache.statuses), old(store.Get(StatusKey))));
      base.Failure? ==> r.Failure? && store.data == old(store.data) && unchanged(cache)
    ensures var base := AsList(CacheFirst(old(cache.statuses), old(store.Get(StatusKey))));
      base.Success? && FindFirst(base.value, id).None? ==>
        r == Failure(Error("Status not found")) && store.data == old(store.data) && unchanged(cache)
    ensures var base := AsList(CacheFirst(old(cache.statuses), old(store.Get(StatusKey))));
      base.Success? && FindFirst(base.value, id).Some? ==>
        var i := FindFirst(base.value, id).value;
        && r == Success(Patched(base.value[i], map["name" := name, "color" := color]))
        && store.data == old(store.data)[StatusKey := List(base.value[i := r.value])]
    ensures r.Success? ==> cache.GetFromCache(Statuses) == store.Get(StatusKey)
    ensures forall s :: s != Statuses ==> cache.GetFromCache(s) == old(cache.GetFromCache(s))
    ensures cache.users == old(cache.users)
  {
    var statuses := GetStatuses(store, cache);
    var xs :- AsList(statuses);
    var index := FindFirst(xs, id);
    if index.None? {
      return Failure(Error("Status not found"));
    }
    var updated := Patched(xs[index.value], map["name" := name, "color" := color]);
    xs := xs[index.value := updated];
    store.Set(StatusKey, List(xs));
    cache.UpdateCache(store, [StatusKey]);
    assert forall sl :: KeyOf(sl) in [StatusKey] <==> sl == Statuses;
    r := Success(updated);
  }

  /**
   * `removeStatus({id})`: keeps the records with another id, in order; an absent
   * id is no error. Returns the filtered array.
   */
  method RemoveStatus(store: Storage, cache: Cache, id: string) returns (r: Result<seq<Record>, Thrown>)
    modifies store, cache
    ensures var base := AsList(CacheFirst(old(cache.statuses), old(store.Get(StatusKey))));
      base.Failure? ==> r.Failure? && store.data == old(store.data) && unchanged(cache)
    ensures var base := AsList(CacheFirst(old(cache.statuses), old(store.Get(StatusKey))));
      base.Success? ==>
        && r == Success(Without(base.value, id))
        && store.data == old(store.data)[StatusKey := List(r.value)]
    ensures r.Success? ==> cache.GetFromCache(Statuses) == store.Get(StatusKey)
    ensures forall s :: s != Statuses ==> cache.GetFromCache(s) == old(cache.GetFromCache(s))
    ensures cache.users == old(cache.users)
  {
    var statuses := GetStatuses(store, cache);
    var xs :- AsList(statuses);
    var filtered := Without(xs, id);
    store.Set(StatusKey, List(filtered));
    cache.UpdateCache(store, [StatusKey]);
    assert forall sl :: KeyOf(sl) in [StatusKey] <==> sl == Statuses;
    r := Success(filtered);
  }
}
