/**
 * src/resolvers/typeResolvers.js. The resolvers keep requirement types under
 * their own key 'types', which the cache does not map (it mirrors
 * 'user-types'), so no type write ever refreshes the cache: these methods do
 * not touch it.
 */
module TypeResolvers {
  import opened Wrappers
  import opened Values
  import opened Config
  import opened Ids
  import opened ForgeStorage
  import opened Records

  /** `getTypes()`: the stored array, or `[]` when the key is absent. */
  method GetTypes(store: Storage) returns (r: Value)
    ensures TypesKey in store.data ==> r == store.data[TypesKey]
    ensures TypesKey !in store.data ==> r == List([])
  {
    var storedData := store.Get(TypesKey);
    r := OrEmpty(storedData);
  }

  /** `addType({name, color})` at clock `now`: appends one `{id, name, color}`. */
  method AddType(store: Storage, name: Option<Json>, color: Option<Json>, now: int)
    returns (r: Result<Record, Thrown>)
    modifies store
    ensures ReadList(old(store.Get(TypesKey))).Failure? ==> r.Failure? && store.data == old(store.data)
    ensures ReadList(old(store.Get(TypesKey))).Success? ==>
              var xs := ReadList(old(store.Get(TypesKey))).value;
              && r == Success(NewRecord(GenerateUniqueId("type", now), map["name" := name, "color" := color]))
              && store.data == old(store.data)[TypesKey := List(xs + [r.value])]
  {
    var storedData :- ReadList(store.Get(TypesKey));
    var newItem := NewRecord(GenerateUniqueId("type", now), map["name" := name, "color" := color]);
    var updatedData := storedData + [newItem];
    store.Set(TypesKey, List(updatedData));
    r := Success(newItem);
  }

  /**
   * `updateType({id, name, color})`: every record with the id gets the new
   * name and color. An absent id still writes the array back unchanged.
   */
  method UpdateType(store: Storage, id: string, name: Option<Json>, color: Option<Json>)
    returns (r: Result<seq<Record>, Thrown>)
    modifies store
    ensures ReadList(old(store.Get(TypesKey))).Failure? ==> r.Failure? && store.data == old(store.data)
    ensures ReadList(old(store.Get(TypesKey))).Success? ==>
              var xs := ReadList(old(store.Get(TypesKey))).value;
              && r == Success(UpdateAll(xs, id, map["name" := name, "color" := color]))
              && store.data == old(store.data)[TypesKey := List(r.value)]
  {
    var storedData :- ReadList(store.Get(TypesKey));
    var updatedData := UpdateAll(storedData, id, map["name" := name, "color" := color]);
    store.Set(TypesKey, List(updatedData));
    r := Success(updatedData);
  }

  /** `removeType({id})`: keeps the records with another id, in order. */
  method RemoveType(store: Storage, id: string) returns (r: Result<seq<Record>, Thrown>)
    modifies store
    ensures ReadList(old(store.Get(TypesKey))).Failure? ==> r.Failure? && store.data == old(store.data)
    ensures ReadList(old(store.Get(TypesKey))).Success? ==>
              && r == Success(Without(ReadList(old(store.Get(TypesKey))).value, id))
              && store.data == old(store.data)[TypesKey := List(r.value)]
  {
    var storedData :- ReadList(store.Get(TypesKey));
    var updatedData := Without(storedData, id);
    store.Set(TypesKey, List(updatedData));
    r := Success(updatedData);
  }
}
