/**
 * src/resolvers/stageResolvers.js: stages read through the cache. Each
 * write stores the whole array and then refreshes the cached slot from
 * storage, so after every successful write the slot equals the stored value.
 */
module StageResolvers {
  import opened Wrappers
  import opened Values
  import opened Config
  import opened Ids
  import opened ForgeStorage
  import opened Records
  import opened CacheLayer

  /** `getStages()`: the cached slot when it is not `null`, else the stored array or `[]`. */
  method GetStages(store: Storage, cache: Cache) returns (r: Value)
    ensures cache.stages.Some? ==> r == cache.stages.value
    ensures cache.stages.None? && StagesKey in store.data ==> r == store.data[StagesKey]
    ensures cache.stages.None? && StagesKey !in store.data ==> r == List([])
  {
    var cached := cache.GetFromCache(Stages);
    if cached.Some? {
      return cached.value;
    }
    var stored := store.Get(StagesKey);
    r := OrEmpty(stored);
  }

  /**
   * `addStage({name, color})` at clock `now`: appends one `{id, name, color}` to
   * the cache-first array, stores it and refreshes the cache.
   */
  method AddStage(store: Storage, cache: Cache, name: Option<Json>, color: Option<Json>, now: int)
    returns (r: Result<Record, Thrown>)
    modifies store, cache
    ensures var base := AsList(CacheFirst(old(cache.stages), old(store.Get(StagesKey))));
      base.Failure? ==> r.Failure? && store.data == old(store.data) && unchanged(cache)
    ensures var base := AsList(CacheFirst(old(cache.stages), old(store.Get(StagesKey))));
      base.Success? ==>
        && r == Success(NewRecord(GenerateUniqueId("stage", now), map["name" := name, "color" := color]))
        && store.data == old(store.data)[StagesKey := List(base.value + [r.value])]
    ensures r.Success? ==> cache.GetFromCache(Stages) == store.Get(StagesKey)
    ensures forall s :: s != Stages ==> cache.GetFromCache(s) == old(cache.GetFromCache(s))
    ensures cache.users == old(cache.users)
  {
    var stages := GetStages(store, cache);
    var xs :- AsList(stages);
    var newStage := NewRecord(GenerateUniqueId("stage", now), map["name" := name, "color" := color]);
    xs := xs + [newStage];
    store.Set(StagesKey, List(xs));
    cache.UpdateCache(store, [StagesKey]);
    assert forall sl :: KeyOf(sl) in [StagesKey] <==> sl == Stages;
    r := Success(newStage);
  }

  /**
   * `updateStage({id, name, color})`: the first record with the id gets the new
   * name and color; an absent id throws "Stage not found" and writes nothing.
   */
  method UpdateStage(store: Storage, cache: Cache, id: string, name: Option<Json>, color: Option<Json>)
    returns (r: Result<Record, Thrown>)
    modifies store, cache
    ensures var base := AsList(CacheFirst(old(cache.stages), old(store.Get(StagesKey))));
      base.Failure? ==> r.Failure? && store.data == old(store.data) && unchanged(cache)
    ensures var base := AsList(CacheFirst(old(cache.stages), old(store.Get(StagesKey))));
      base.Success? && FindFirst(base.value, id).None? ==>
        r == Failure(Error("Stage not found")) && store.data == old(store.data) && unchanged(cache)
    ensures var base := AsList(CacheFirst(old(cache.stages), old(store.Get(StagesKey))));
      base.Success? && FindFirst(base.value, id).Some? ==>
        var i := FindFirst(base.value, id).value;
        && r == Success(Patched(base.value[i], map["name" := name, "color" := color]))
        && store.data == old(store.data)[StagesKey := List(base.value[i := r.value])]
    ensures r.Success? ==> cache.GetFromCache(Stages) == store.Get(StagesKey)
    ensures forall s :: s != Stages ==> cache.GetFromCache(s) == old(cache.GetFromCache(s))
    ensures cache.users == old(cache.users)
  {
    var stages := GetStages(store, cache);
    var xs :- AsList(stages);
    var index := FindFirst(xs, id);
    if index.None? {
      return Failure(Error("Stage not found"));
    }
    var updated := Patched(xs[index.value], map["name" := name, "color" := color]);
    xs := xs[index.value := updated];
    store.Set(StagesKey, List(xs));
    cache.UpdateCache(store, [StagesKey]);
    assert forall sl :: KeyOf(sl) in [StagesKey] <==> sl == Stages;
    r := Success(updated);
  }

  /**
   * `removeStage({id})`: keeps the records with another id, in order; an absent
   * id is no error. Returns the filtered array.
   */
  method RemoveStage(store: Storage, cache: Cache, id: string) returns (r: Result<seq<Record>, Thrown>)
    modifies store, cache
    ensures var base := AsList(CacheFirst(old(cache.stages), old(store.Get(StagesKey))));
      base.Failure? ==> r.Failure? && store.data == old(store.data) && unchanged(cache)
    ensures var base := AsList(CacheFirst(old(cache.stages), old(store.Get(StagesKey))));
      base.Success? ==>
        && r == Success(Without(base.value, id))
        && store.data == old(store.data)[StagesKey := List(r.value)]
    ensures r.Success? ==> cache.GetFromCache(Stages) == store.Get(StagesKey)
    ensures forall s :: s != Stages ==> cache.GetFromCache(s) == old(cache.GetFromCache(s))
    ensures cache.users == old(cache.users)
  {
    var stages := GetStages(store, cache);
    var xs :- AsList(stages);
    var filtered := Without(xs, id);
    store.Set(StagesKey, List(filtered));
    cache.UpdateCache(store, [StagesKey]);
    assert forall sl :: KeyOf(sl) in [StagesKey] <==> sl == Stages;
    r := Success(filtered);
  }
}
